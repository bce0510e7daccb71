/**
 UTF-8 and the two binary encodings of a HAL value: the
 self-delimiting one of the runtime protocol and the strict one of the HAL core.
 Floating-point payloads are bit patterns.
 */
module Wire {
  import opened Values
  import opened Scalars

  datatype Error = TooShort | BadLength | BadText | UnknownType | UnknownElement

  datatype Result<+T> = Ok(value: T) | Err(error: Error)

  // ----- UTF-8 -----

  predicate Continuation(b: u8) { 0x80 <= b <= 0xBF }

  /** Length of the well-formed character at the start of a text (RFC 3629, section 4), or 0. */
  function CharLength(s: Bytes): (n: nat)
    ensures n <= |s|
  {
    if s == [] then 0
    else if s[0] < 0x80 then 1
    else if 0xC2 <= s[0] <= 0xDF then if |s| >= 2 && Continuation(s[1]) then 2 else 0
    else if 0xE0 <= s[0] <= 0xEF then
      if |s| >= 3 && Continuation(s[1]) && Continuation(s[2]) && (s[0] == 0xE0 ==> s[1] >= 0xA0) && (s[0] == 0xED ==> s[1] <= 0x9F) then 3 else 0
    else if 0xF0 <= s[0] <= 0xF4 then
      if |s| >= 4 && Continuation(s[1]) && Continuation(s[2]) && Continuation(s[3]) && (s[0] == 0xF0 ==> s[1] >= 0x90) && (s[0] == 0xF4 ==> s[1] <= 0x8F) then 4 else 0
    else 0
  }

  predicate ValidUtf8(s: Bytes)
    decreases |s|
  {
    s == [] || (CharLength(s) > 0 && ValidUtf8(s[CharLength(s)..]))
  }

  // ----- element types -----

  function TagPin(d: u8): Result<PinType> {
    match d
    case 0 => Ok(PBool)
    case 1 => Ok(PS8)
    case 2 => Ok(PU8)
    case 3 => Ok(PS16)
    case 4 => Ok(PU16)
    case 5 => Ok(PS32)
    case 6 => Ok(PU32)
    case 7 => Ok(PS64)
    case 8 => Ok(PU64)
    case 9 => Ok(PF32)
    case 10 => Ok(PF64)
    case 11 => Ok(PBlob)
    case 12 => Ok(PString)
    case _ => Err(UnknownElement)
  }

  lemma PinTagsMatch(t: PinType, d: u8)
    ensures TagPin(PinTag(t)) == Ok(t)
    ensures TagPin(d).Ok? ==> PinTag(TagPin(d).value) == d
  {
  }

  // ----- values -----

  /** Values the source can hold: float bits of their width, valid text, payloads below 2^32 bytes. */
  predicate Representable(v: WireValue) {
    match v
    case F32(_) => BitsFit(v)
    case F64(_) => BitsFit(v)
    case Blob(b) => |b| < TWO_32
    case String(b) => |b| < TWO_32 && ValidUtf8(b)
    case Array(_, b) => |b| < TWO_32
    case _ => true
  }

  // ----- the self-delimiting encoding of the runtime protocol -----

  const ARRAY_TAG: u8 := 0xFE

  function LengthBytes(b: Bytes): Bytes { LeBytes(|b| % TWO_32, 4) }

  function Encode(v: WireValue): (r: Bytes)
    ensures |r| >= 1
  {
    match v
    case Array(t, b) => [ARRAY_TAG] + LengthBytes(b) + [PinTag(t)] + b
    case Blob(b) => [11] + LengthBytes(b) + b
    case String(b) => [12] + LengthBytes(b) + b
    case _ => [ScalarTag(v)] + ScalarBytes(v)
  }

  /** A value and the number of bytes it took. A missing Boolean byte reads as false and still counts. */
  function Decode(data: Bytes): Result<(WireValue, nat)> {
    if data == [] then Err(TooShort)
    else
      var tag, rest := data[0], data[1..];
      if tag == 0 then Ok((Bool(rest != [] && rest[0] != 0), 2))
      else if tag <= 10 then
        if |rest| < Width(tag) then Err(TooShort) else Ok((Scalar(tag, rest[..Width(tag)]), 1 + Width(tag)))
      else if tag == 11 || tag == 12 then
        if |rest| < 4 then Err(TooShort)
        else
          var len := FromLe(rest[..4]);
          if |rest| < 4 + len then Err(TooShort)
          else if tag == 11 then Ok((Blob(rest[4..4 + len]), 5 + len))
          else if !ValidUtf8(rest[4..4 + len]) then Err(BadText)
          else Ok((String(rest[4..4 + len]), 5 + len))
      else if tag == ARRAY_TAG then
        if |rest| < 4 then Err(TooShort)
        else
          var len := FromLe(rest[..4]);
          if |rest| < 5 + len then Err(TooShort)
          else
            var t := TagPin(rest[4]);
            if t.Err? then Err(t.error) else Ok((Array(t.value, rest[5..5 + len]), 6 + len))
      else Err(UnknownType)
  }

  lemma LengthRoundTrip(b: Bytes)
    requires |b| < TWO_32
    ensures |LengthBytes(b)| == 4 && FromLe(LengthBytes(b)) == |b|
  {
    hide LeBytes, FromLe, Pow256;
    Pow256Values();
    LeRoundTrip(|b|, 4);
  }

  lemma ScalarSelfDelimiting(v: WireValue, suffix: Bytes)
    requires IsScalar(v) && Representable(v)
    ensures Decode(Encode(v) + suffix) == Ok((v, |Encode(v)|))
  {
    hide Scalar, ScalarBytes, FromLe, ValidUtf8, TagPin;
    ScalarRoundTrip(v);
    var data, b := Encode(v) + suffix, ScalarBytes(v);
    assert data[1..][..Width(ScalarTag(v))] == b;
    if v.Bool? {
      BoolBytes(v.b);
    }
  }

  lemma BoolBytes(b: bool)
    ensures ScalarBytes(Bool(b)) == [if b then 1 else 0]
  {
  }

  /** The parts of tag, length, payload and suffix. */
  lemma FrameParts(tag: u8, head: Bytes, b: Bytes, suffix: Bytes)
    ensures var data := [tag] + head + b + suffix;
            && data != [] && data[0] == tag && |data[1..]| == |head| + |b| + |suffix|
            && data[1..][..|head|] == head && data[1..][|head|..|head| + |b|] == b
  {
    var data := [tag] + head + b + suffix;
    assert data[1..] == head + b + suffix;
  }

  lemma {:induction false} TextSelfDelimiting(tag: u8, b: Bytes, suffix: Bytes)
    requires (tag == 11 || tag == 12) && |b| < TWO_32 && (tag == 12 ==> ValidUtf8(b))
    ensures Decode([tag] + LengthBytes(b) + b + suffix) == Ok((if tag == 11 then Blob(b) else String(b), 5 + |b|))
  {
    hide LengthBytes, FromLe, ValidUtf8, TagPin, Scalar, Width;
    LengthRoundTrip(b);
    FrameParts(tag, LengthBytes(b), b, suffix);
  }

  lemma ArraySelfDelimiting(t: PinType, b: Bytes, suffix: Bytes)
    requires |b| < TWO_32
    ensures Decode([ARRAY_TAG] + LengthBytes(b) + [PinTag(t)] + b + suffix) == Ok((Array(t, b), 6 + |b|))
  {
    hide LengthBytes, FromLe, ValidUtf8, TagPin, PinTag, Scalar, Width;
    LengthRoundTrip(b);
    PinTagsMatch(t, 0);
    var head := LengthBytes(b) + [PinTag(t)];
    var data := [ARRAY_TAG] + LengthBytes(b) + [PinTag(t)] + b + suffix;
    assert data == [ARRAY_TAG] + head + b + suffix;
    FrameParts(ARRAY_TAG, head, b, suffix);
    assert data[1..][..4] == data[1..][..5][..4] == head[..4] == LengthBytes(b);
    assert data[1..][4] == data[1..][..5][4] == PinTag(t);
  }

  /** Decoding an encoding with any bytes behind it gives the value and exactly its length. */
  lemma SelfDelimiting(v: WireValue, suffix: Bytes)
    requires Representable(v)
    ensures Decode(Encode(v) + suffix) == Ok((v, |Encode(v)|))
  {
    hide Decode, LengthBytes, ValidUtf8, PinTag;
    match v
    case Blob(b) => TextSelfDelimiting(11, b, suffix); LengthSize(b);
    case String(b) => TextSelfDelimiting(12, b, suffix); LengthSize(b);
    case Array(t, b) => ArraySelfDelimiting(t, b, suffix); LengthSize(b);
    case _ => ScalarSelfDelimiting(v, suffix);
  }

  lemma LengthSize(b: Bytes)
    ensures |LengthBytes(b)| == 4
  {
  }

  /** No encoding is a proper prefix of another, so a stream of encodings has one reading. */
  lemma EncodingsUnambiguous(v: WireValue, w: WireValue, s: Bytes, t: Bytes)
    requires Representable(v) && Representable(w) && Encode(v) + s == Encode(w) + t
    ensures v == w && s == t
  {
    hide Decode, Encode;
    SelfDelimiting(v, s);
    SelfDelimiting(w, t);
    assert (Encode(v) + s)[|Encode(v)|..] == s && (Encode(w) + t)[|Encode(w)|..] == t;
  }

  lemma {:induction false} LengthCanonical(b: Bytes, payload: Bytes)
    requires |b| == 4 && FromLe(b) == |payload|
    ensures |payload| < TWO_32 && LengthBytes(payload) == b
  {
    hide LeBytes, FromLe, Pow256;
    FromLeRoundTrip(b);
    Pow256Values();
  }

  lemma DecodesOnlyText(data: Bytes)
    requires data != [] && (data[0] == 11 || data[0] == 12) && Decode(data).Ok?
    ensures var (v, n) := Decode(data).value;
            Representable(v) && n <= |data| && Encode(v) == data[..n]
  {
    hide FromLe, ValidUtf8, TagPin, PinTag, Scalar, ScalarBytes, LengthBytes, Width;
    var rest := data[1..];
    var len := FromLe(rest[..4]);
    LengthCanonical(rest[..4], rest[4..4 + len]);
    assert data[..5 + len] == [data[0]] + rest[..4] + rest[4..4 + len];
  }

  lemma DecodesOnlyArrays(data: Bytes)
    requires data != [] && data[0] == ARRAY_TAG && Decode(data).Ok?
    ensures var (v, n) := Decode(data).value;
            Representable(v) && n <= |data| && Encode(v) == data[..n]
  {
    hide FromLe, ValidUtf8, TagPin, PinTag, Scalar, ScalarBytes, LengthBytes, Width;
    var rest := data[1..];
    var len := FromLe(rest[..4]);
    LengthCanonical(rest[..4], rest[5..5 + len]);
    PinTagsMatch(PBool, rest[4]);
    assert data[..6 + len] == [data[0]] + rest[..4] + [rest[4]] + rest[5..5 + len];
  }

  lemma DecodesOnlyScalars(data: Bytes)
    requires data != [] && 1 <= data[0] <= 10 && Decode(data).Ok?
    ensures var (v, n) := Decode(data).value;
            Representable(v) && n <= |data| && Encode(v) == data[..n]
  {
    hide FromLe, ValidUtf8, TagPin, PinTag, Scalar, ScalarBytes, LengthBytes, Width;
    var tag, rest := data[0], data[1..];
    ScalarCanonical(tag, rest[..Width(tag)]);
    assert data[..1 + Width(tag)] == [tag] + rest[..Width(tag)];
  }

  /** The decoder accepts nothing but encodings: what it reads, re-encoded, is what was there
      (Booleans apart, where every non-zero byte, or none at all, is accepted). */
  lemma DecodesOnlyEncodings(data: Bytes)
    requires Decode(data).Ok? && !Decode(data).value.0.Bool?
    ensures var (v, n) := Decode(data).value;
            Representable(v) && n <= |data| && Encode(v) == data[..n]
  {
    KnownTag(data);
    hide Decode, Encode, Representable;
    if data[0] <= 10 {
      DecodesOnlyScalars(data);
    } else if data[0] == ARRAY_TAG {
      DecodesOnlyArrays(data);
    } else {
      DecodesOnlyText(data);
    }
  }

  lemma KnownTag(data: Bytes)
    requires Decode(data).Ok? && !Decode(data).value.0.Bool?
    ensures data != [] && (1 <= data[0] <= 12 || data[0] == ARRAY_TAG)
  {
    hide FromLe, ValidUtf8, TagPin, Scalar;
  }

  method EncodeHalValue(v: WireValue) returns (buf: Bytes)
    ensures buf == Encode(v)
  {
    hide *;
    EncodeIs(v);
    buf := [];
    match v
    case Array(t, b) =>
      buf := buf + [0xFE];
      buf := buf + LengthBytes(b);
      buf := buf + [PinTag(t)];
      buf := buf + b;
    case Blob(b) =>
      buf := buf + [11];
      buf := buf + LengthBytes(b);
      buf := buf + b;
    case String(b) =>
      buf := buf + [12];
      buf := buf + LengthBytes(b);
      buf := buf + b;
    case _ =>
      buf := buf + [ScalarTag(v)];
      buf := buf + ScalarBytes(v);
  }

  lemma EncodeIs(v: WireValue)
    ensures match v
            case Array(t, b) => Encode(v) == [0xFE] + LengthBytes(b) + [PinTag(t)] + b
            case Blob(b) => Encode(v) == [11] + LengthBytes(b) + b
            case String(b) => Encode(v) == [12] + LengthBytes(b) + b
            case _ => Encode(v) == [ScalarTag(v)] + ScalarBytes(v)
  {
    hide ScalarBytes, LengthBytes, PinTag, ScalarTag;
  }

  // ----- snapshots -----

  datatype Entry = Entry(name: Bytes, value: WireValue)

  predicate GoodEntry(e: Entry) { |e.name| < 0x1_0000 && ValidUtf8(e.name) && Representable(e.value) }

  function EntryBytes(e: Entry): Bytes { LeBytes(|e.name| % 0x1_0000, 2) + e.name + Encode(e.value) }

  function EntriesBytes(entries: seq<Entry>): Bytes {
    if entries == [] then [] else EntryBytes(entries[0]) + EntriesBytes(entries[1..])
  }

  /** A snapshot: a 16-bit count, then for every entry a 16-bit name length, the name and the value. */
  function SnapshotBytes(entries: seq<Entry>): Bytes { LeBytes(|entries| % 0x1_0000, 2) + EntriesBytes(entries) }

  /** The next entry and the offset behind it; `lossy` is the library's lenient text conversion. */
  function ReadEntry(data: Bytes, offset: nat, lossy: Bytes -> Bytes): Result<(Entry, nat)> {
    if offset + 2 > |data| then Err(TooShort)
    else
      var len := FromLe(data[offset..offset + 2]);
      if offset + 2 + len > |data| then Err(TooShort)
      else
        var name := lossy(data[offset + 2..offset + 2 + len]);
        match Decode(data[offset + 2 + len..])
        case Err(e) => Err(e)
        case Ok((v, n)) => Ok((Entry(name, v), offset + 2 + len + n))
  }

  function ReadEntries(data: Bytes, offset: nat, count: nat, lossy: Bytes -> Bytes): Result<seq<Entry>>
    decreases count
  {
    if count == 0 then Ok([])
    else match ReadEntry(data, offset, lossy)
      case Err(e) => Err(e)
      case Ok((entry, next)) =>
        match ReadEntries(data, next, count - 1, lossy)
        case Err(e) => Err(e)
        case Ok(rest) => Ok([entry] + rest)
  }

  function ReadSnapshot(data: Bytes, lossy: Bytes -> Bytes): Result<seq<Entry>> {
    if |data| < 2 then Err(TooShort) else ReadEntries(data, 2, FromLe(data[..2]), lossy)
  }

  function Prepend(done: seq<Entry>, r: Result<seq<Entry>>): Result<seq<Entry>> {
    if r.Ok? then Ok(done + r.value) else r
  }

  lemma ReadEntriesStep(data: Bytes, offset: nat, count: nat, lossy: Bytes -> Bytes, done: seq<Entry>)
    requires count > 0
    ensures Prepend(done, ReadEntries(data, offset, count, lossy)) ==
      match ReadEntry(data, offset, lossy)
      case Err(e) => Err(e)
      case Ok((entry, next)) => Prepend(done + [entry], ReadEntries(data, next, count - 1, lossy))
  {
    hide ReadEntry;
    var r := ReadEntry(data, offset, lossy);
    if r.Ok? {
      var rest := ReadEntries(data, r.value.1, count - 1, lossy);
      if rest.Ok? {
        assert done + ([r.value.0] + rest.value) == done + [r.value.0] + rest.value;
      }
    }
  }

  method DecodeSnapshotResponse(data: Bytes, lossy: Bytes -> Bytes) returns (r: Result<seq<Entry>>)
    ensures r == ReadSnapshot(data, lossy)
  {
    hide Decode, FromLe, ReadEntries;
    if |data| < 2 {
      return Err(TooShort);
    }
    var count := FromLe([data[0], data[1]]);
    assert data[..2] == [data[0], data[1]];
    var results: seq<Entry> := [];
    var offset: nat := 2;
    ghost var all := ReadEntries(data, 2, count, lossy);
    PrependNothing(all);
    for k := 0 to count
      invariant Prepend(results, ReadEntries(data, offset, count - k, lossy)) == all
    {
      ReadEntriesStep(data, offset, count - k, lossy, results);
      if offset + 2 > |data| {
        return Err(TooShort);
      }
      var nameLen := FromLe([data[offset], data[offset + 1]]);
      assert data[offset..offset + 2] == [data[offset], data[offset + 1]];
      if offset + 2 + nameLen > |data| {
        return Err(TooShort);
      }
      var name := lossy(data[offset + 2..offset + 2 + nameLen]);
      var decoded := Decode(data[offset + 2 + nameLen..]);
      if decoded.Err? {
        return Err(decoded.error);
      }
      results := results + [Entry(name, decoded.value.0)];
      offset := offset + 2 + nameLen + decoded.value.1;
    }
    ReadNothing(data, offset, lossy);
    assert results + [] == results;
    r := Ok(results);
  }

  lemma PrependNothing(r: Result<seq<Entry>>)
    ensures Prepend([], r) == r
  {
    if r.Ok? {
      assert [] + r.value == r.value;
    }
  }

  lemma ReadNothing(data: Bytes, offset: nat, lossy: Bytes -> Bytes)
    ensures ReadEntries(data, offset, 0, lossy) == Ok([])
  {
  }

  lemma {:induction false} Le16RoundTrip(n: nat)
    requires n < 0x1_0000
    ensures FromLe(LeBytes(n, 2)) == n
  {
    Pow256Values();
    LeRoundTrip(n, 2);
  }

  lemma EntryRoundTrip(data: Bytes, offset: nat, e: Entry, suffix: Bytes, lossy: Bytes -> Bytes)
    requires GoodEntry(e) && lossy(e.name) == e.name
    requires offset <= |data| && data[offset..] == EntryBytes(e) + suffix
    ensures ReadEntry(data, offset, lossy) == Ok((e, offset + |EntryBytes(e)|))
  {
    hide Decode, Encode, ValidUtf8, Representable, LeBytes, FromLe;
    Le16RoundTrip(|e.name|);
    var head, len := LeBytes(|e.name|, 2), |e.name|;
    var tail := data[offset..];
    assert tail == head + (e.name + (Encode(e.value) + suffix));
    assert data[offset..offset + 2] == tail[..2] == head;
    assert data[offset + 2..offset + 2 + len] == tail[2..2 + len] == e.name;
    assert data[offset + 2 + len..] == tail[2 + len..] == Encode(e.value) + suffix;
    SelfDelimiting(e.value, suffix);
  }

  lemma {:induction false} EntriesRoundTrip(data: Bytes, offset: nat, entries: seq<Entry>, lossy: Bytes -> Bytes)
    requires forall i :: 0 <= i < |entries| ==> GoodEntry(entries[i]) && lossy(entries[i].name) == entries[i].name
    requires offset <= |data| && data[offset..] == EntriesBytes(entries)
    ensures ReadEntries(data, offset, |entries|, lossy) == Ok(entries)
    decreases |entries|
  {
    hide EntryBytes, ReadEntry, GoodEntry;
    if entries != [] {
      var e, rest := entries[0], EntriesBytes(entries[1..]);
      EntryRoundTrip(data, offset, e, rest, lossy);
      var next := offset + |EntryBytes(e)|;
      assert data[next..] == data[offset..][|EntryBytes(e)|..] == rest;
      EntriesRoundTrip(data, next, entries[1..], lossy);
      assert [e] + entries[1..] == entries;
    }
  }

  /** A snapshot of up to 65535 entries decodes back to the same list. */
  lemma SnapshotRoundTrip(entries: seq<Entry>, lossy: Bytes -> Bytes)
    requires |entries| < 0x1_0000
    requires forall i :: 0 <= i < |entries| ==> GoodEntry(entries[i])
    requires forall s :: ValidUtf8(s) ==> lossy(s) == s
    ensures ReadSnapshot(SnapshotBytes(entries), lossy) == Ok(entries)
  {
    hide EntriesBytes, ReadEntries, FromLe, LeBytes;
    var data := SnapshotBytes(entries);
    Le16RoundTrip(|entries|);
    assert data[..2] == LeBytes(|entries|, 2) && data[2..] == EntriesBytes(entries);
    EntriesRoundTrip(data, 2, entries, lossy);
  }

  // ----- the strict encoding of the HAL core -----

  function EncodeStrict(v: WireValue): Bytes {
    match v
    case Array(t, b) => [13, PinTag(t)] + LengthBytes(b) + b
    case _ => Encode(v)
  }

  /** Decodes a whole buffer; the array header check asks for one byte more than the header has. */
  function DecodeStrict(buf: Bytes): Result<WireValue> {
    if buf == [] then Err(TooShort)
    else
      var tag, rest := buf[0], buf[1..];
      if tag <= 10 then
        if |rest| < Width(tag) then Err(TooShort) else Ok(Scalar(tag, rest[..Width(tag)]))
      else if tag == 11 || tag == 12 then
        if |rest| < 4 then Err(TooShort)
        else if FromLe(rest[..4]) != |rest| - 4 then Err(BadLength)
        else if tag == 11 then Ok(Blob(rest[4..]))
        else if !ValidUtf8(rest[4..]) then Err(BadText)
        else Ok(String(rest[4..]))
      else if tag == 13 then
        if |rest| < 6 then Err(TooShort)
        else
          var len := FromLe(rest[1..5]);
          if |rest| < 5 + len then Err(TooShort)
          else
            var t := TagPin(rest[0]);
            if t.Err? then Err(t.error) else Ok(Array(t.value, rest[5..5 + len]))
      else Err(UnknownType)
  }

  lemma StrictScalar(v: WireValue)
    requires IsScalar(v) && Representable(v)
    ensures DecodeStrict(EncodeStrict(v)) == Ok(v)
  {
    hide Scalar, ScalarBytes, FromLe, ValidUtf8, TagPin;
    ScalarRoundTrip(v);
    assert Encode(v)[1..] == ScalarBytes(v) && ScalarBytes(v)[..Width(ScalarTag(v))] == ScalarBytes(v);
  }

  lemma StrictText(v: WireValue, b: Bytes)
    requires Representable(v) && (v == Blob(b) || v == String(b))
    ensures DecodeStrict(EncodeStrict(v)) == Ok(v)
  {
    hide LengthBytes, FromLe, ValidUtf8, TagPin, Scalar;
    LengthRoundTrip(b);
    var rest := Encode(v)[1..];
    assert rest[..4] == LengthBytes(b) && rest[4..] == b;
  }

  lemma StrictArray(t: PinType, b: Bytes)
    requires |b| < TWO_32
    ensures DecodeStrict(EncodeStrict(Array(t, b))) == if b == [] then Err(TooShort) else Ok(Array(t, b))
  {
    hide LengthBytes, FromLe, ValidUtf8, TagPin, PinTag, Scalar;
    LengthRoundTrip(b);
    PinTagsMatch(t, 0);
    StrictHeader(PinTag(t), LengthBytes(b), b);
  }

  lemma StrictHeader(tag: u8, length: Bytes, b: Bytes)
    requires |length| == 4
    ensures var rest := ([13, tag] + length + b)[1..];
            |rest| == 5 + |b| && rest[0] == tag && rest[1..5] == length && rest[5..5 + |b|] == b
  {
    var rest := ([13, tag] + length + b)[1..];
    assert rest == [tag] + length + b;
  }

  /** The strict codec round-trips a value exactly when it is not an empty array. */
  lemma StrictRoundTripIffNotEmptyArray(v: WireValue)
    requires Representable(v)
    ensures DecodeStrict(EncodeStrict(v)) == Ok(v) <==> !(v.Array? && v.data == [])
  {
    hide DecodeStrict, EncodeStrict, ValidUtf8;
    match v
    case Blob(b) => StrictText(v, b);
    case String(b) => StrictText(v, b);
    case Array(t, b) => StrictArray(t, b);
    case _ => StrictScalar(v);
  }

  // ----- the bytes themselves -----

  /** The first byte of an encoding is the number of its type; arrays have 254 in the protocol and 13 in
      the strict codec. */
  lemma TypeBytes(v: WireValue)
    ensures (v.Bool? ==> Encode(v)[0] == 0) && (v.S8? ==> Encode(v)[0] == 1) && (v.U8? ==> Encode(v)[0] == 2)
    ensures (v.S16? ==> Encode(v)[0] == 3) && (v.U16? ==> Encode(v)[0] == 4) && (v.S32? ==> Encode(v)[0] == 5)
    ensures (v.U32? ==> Encode(v)[0] == 6) && (v.S64? ==> Encode(v)[0] == 7) && (v.U64? ==> Encode(v)[0] == 8)
    ensures (v.F32? ==> Encode(v)[0] == 9) && (v.F64? ==> Encode(v)[0] == 10)
    ensures (v.Blob? ==> Encode(v)[0] == 11) && (v.String? ==> Encode(v)[0] == 12)
    ensures v.Array? ==> Encode(v)[0] == 254 && EncodeStrict(v)[0] == 13
    ensures v.Bool? ==> Encode(v) == [0, if v.b then 1 else 0]
    ensures !v.Array? ==> EncodeStrict(v) == Encode(v)
  {
    hide LengthBytes, PinTag;
  }

  /** The element type of an array stands behind its length in the protocol and before it in the strict codec. */
  lemma ElementBytes(t: PinType, b: Bytes)
    ensures |Encode(Array(t, b))| == 6 + |b| && |EncodeStrict(Array(t, b))| == 6 + |b|
    ensures Encode(Array(t, b))[5] == EncodeStrict(Array(t, b))[1] == match t
              case PBool => 0
              case PS8 => 1
              case PU8 => 2
              case PS16 => 3
              case PU16 => 4
              case PS32 => 5
              case PU32 => 6
              case PS64 => 7
              case PU64 => 8
              case PF32 => 9
              case PF64 => 10
              case PBlob => 11
              case PString => 12
  {
    LengthSize(b);
    hide LengthBytes, PinTag;
    PinTagIs(t);
  }

  lemma PinTagIs(t: PinType)
    ensures PinTag(t) == match t
              case PBool => 0
              case PS8 => 1
              case PU8 => 2
              case PS16 => 3
              case PU16 => 4
              case PS32 => 5
              case PU32 => 6
              case PS64 => 7
              case PU64 => 8
              case PF32 => 9
              case PF64 => 10
              case PBlob => 11
              case PString => 12
  {
  }

  /** `v` is an integer `n` of `w` bytes. */
  predicate IsNumber(v: WireValue, n: int, w: nat) {
    match v
    case S8(x) => n == x && w == 1
    case U8(x) => n == x && w == 1
    case S16(x) => n == x && w == 2
    case U16(x) => n == x && w == 2
    case S32(x) => n == x && w == 4
    case U32(x) => n == x && w == 4
    case S64(x) => n == x && w == 8
    case U64(x) => n == x && w == 8
    case F32(bits) => n == bits && w == 4 && bits < TWO_32
    case F64(bits) => n == bits && w == 8 && bits < TWO_64
    case _ => false
  }

  /** An integer is laid out behind its type as its digits to base 256, lowest first, negative numbers
      counting down from the power of 256; floating-point bits likewise. */
  lemma {:induction false} NumberBytes(v: WireValue, n: int, w: nat, i: nat)
    requires IsNumber(v, n, w) && i < w
    ensures |Encode(v)| == 1 + w && Encode(v)[1 + i] == n % Pow256(w) / Pow256(i) % 256
  {
    hide LeBytes, Pow256, ToUnsigned;
    Pow256Values();
    NumberIsBytes(v, n, w);
    LeByteAt(n % Pow256(w), w, i);
  }

  lemma {:induction false} NumberIsBytes(v: WireValue, n: int, w: nat)
    requires IsNumber(v, n, w)
    ensures Encode(v) == [ScalarTag(v)] + LeBytes(n % Pow256(w), w)
  {
    hide LeBytes, Pow256;
    Pow256Values();
  }

  /** A text or blob stands behind its length of four bytes, lowest first. */
  lemma {:induction false} TextBytes(b: Bytes, i: nat)
    requires |b| < TWO_32 && i < 4
    ensures Encode(Blob(b)) == [11] + Encode(Blob(b))[1..5] + b && Encode(String(b)) == [12] + Encode(String(b))[1..5] + b
    ensures Encode(Blob(b))[1 + i] == Encode(String(b))[1 + i] == |b| / Pow256(i) % 256
  {
    hide LeBytes, Pow256;
    LeByteAt(|b|, 4, i);
    assert Encode(Blob(b))[1..5] == LengthBytes(b) && Encode(String(b))[1..5] == LengthBytes(b);
  }

  lemma {:induction false} TwoDigits(n: nat)
    requires n < 0x1_0000
    ensures LeBytes(n, 2) == [n % 256, n / 256]
  {
    assert LeBytes(n, 2) == [n % 256] + LeBytes(n / 256, 1);
    assert LeBytes(n / 256, 1) == [n / 256 % 256] + LeBytes(n / 256 / 256, 0);
    assert n / 256 < 256;
  }

  lemma {:induction false} CountFirst(entries: seq<Entry>)
    requires |entries| < 0x1_0000
    ensures SnapshotBytes(entries) == LeBytes(|entries|, 2) + EntriesBytes(entries)
  {
    hide LeBytes, EntriesBytes;
    assert |entries| % 0x1_0000 == |entries|;
  }

  lemma {:induction false} NoEntries(entries: seq<Entry>)
    requires entries == []
    ensures EntriesBytes(entries) == []
  {
    hide LeBytes, EntryBytes;
  }

  lemma {:induction false} EntryFirst(e: Entry, rest: seq<Entry>)
    requires |e.name| < 0x1_0000
    ensures EntriesBytes([e] + rest) == LeBytes(|e.name|, 2) + e.name + Encode(e.value) + EntriesBytes(rest)
  {
    hide LeBytes, Encode;
    assert ([e] + rest)[1..] == rest;
  }

  /** A snapshot starts with the low and high byte of its count; an entry is the low and high byte of the
      length of its name, the name and the value. */
  lemma {:induction false} SnapshotLayout(entries: seq<Entry>, e: Entry, rest: seq<Entry>)
    requires |entries| < 0x1_0000 && |e.name| < 0x1_0000
    ensures SnapshotBytes(entries) == [|entries| % 256, |entries| / 256] + EntriesBytes(entries)
    ensures rest == [] ==> EntriesBytes(rest) == []
    ensures EntriesBytes([e] + rest) == [|e.name| % 256, |e.name| / 256] + e.name + Encode(e.value) + EntriesBytes(rest)
  {
    hide *;
    TwoDigits(|entries|);
    TwoDigits(|e.name|);
    CountFirst(entries);
    if rest == [] {
      NoEntries(rest);
    }
    EntryFirst(e, rest);
  }

  /** An array in the protocol: its tag, the four length bytes, the element tag and the data. */
  lemma {:induction false} ArrayLayout(t: PinType, b: Bytes, i: nat)
    requires |b| < TWO_32 && i < 4
    ensures Encode(Array(t, b)) == Encode(Array(t, b))[..6] + b && Encode(Array(t, b))[1 + i] == |b| / Pow256(i) % 256
  {
    hide LeBytes, Pow256;
    LeByteAt(|b|, 4, i);
    assert Encode(Array(t, b))[1..5] == LengthBytes(b);
  }
}
