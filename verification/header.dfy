/** The block header codec: RLP framing, encoding from RPC fields and strict verification. */
module Header {
  import opened Words

  // ---------------------------------------------------------------- RLP (Appendix B of the Yellow Paper)

  /** The shortest big-endian digits of n. */
  function Digits(n: nat): Bytes {
    if n == 0 then [] else Digits(n / 256) + [n % 256]
  }

  const TEXT: byte := 0x80
  const LIST: byte := 0xc0

  /** What precedes a payload of n bytes. */
  function Frame(base: byte, n: nat): Bytes
    requires base <= LIST
  {
    if n < 56 then [base + n] else [(base + 55 + |Digits(n)|) % 256] + Digits(n)
  }

  function Encode(payload: Bytes, list: bool): (r: Bytes)
    ensures |r| >= |payload|
  {
    if list then Frame(LIST, |payload|) + payload
    else if |payload| == 1 && payload[0] < 0x80 then payload
    else Frame(TEXT, |payload|) + payload
  }

  datatype Item = Item(payload: Bytes, rest: Bytes)

  function Split(buf: Bytes, n: nat): Result<Item> {
    if |buf| < n then Err("input too short") else Ok(Item(buf[..n], buf[n..]))
  }

  /** A long form: k bytes of length, no leading zero, and a length that needs the long form. */
  function DecodeLong(buf: Bytes, k: nat): Result<Item>
    requires k > 0
  {
    if |buf| < k then Err("input too short")
    else if buf[0] == 0 then Err("leading zero")
    else if BigEndian(buf[..k]) < 56 then Err("non-canonical size")
    else Split(buf[k..], BigEndian(buf[..k]))
  }

  /** Takes one item of the wanted kind off the front, refusing every non-canonical form. */
  function Decode(buf: Bytes, list: bool): Result<Item> {
    if buf == [] then Err("input too short")
    else
      var b := buf[0];
      if list != (b >= LIST) then Err("unexpected kind of item")
      else if b < 0x80 then Split(buf, 1)
      else if b <= 0xb7 then
        if b == 0x81 && |buf| > 1 && buf[1] < 0x80 then Err("non-canonical single byte") else Split(buf[1..], b - 0x80)
      else if b <= 0xbf then DecodeLong(buf[1..], b - 0xb7)
      else if b <= 0xf7 then Split(buf[1..], b - 0xc0)
      else DecodeLong(buf[1..], b - 0xf7)
  }

  lemma {:induction false} DigitsValue(n: nat)
    ensures BigEndian(Digits(n)) == n
    ensures n > 0 ==> Digits(n) != [] && Digits(n)[0] != 0
  {
    if n > 0 {
      DigitsValue(n / 256);
      var d := Digits(n / 256);
      assert (d + [n % 256])[..|d|] == d;
    }
  }

  lemma {:induction false} DigitsShort(n: nat, k: nat)
    requires n < Power(k)
    ensures |Digits(n)| <= k
  {
    if n > 0 {
      if k == 0 { assert false; }
      DigitsShort(n / 256, k - 1);
    }
  }

  /** Length bytes without a leading zero are the digits of the length. */
  lemma DigitsOf(b: Bytes)
    requires b != [] && b[0] != 0
    ensures Digits(BigEndian(b)) == b
  {
    var n := BigEndian(b);
    PositiveValue(b);
    DigitsValue(n);
    CanonicalDigits(Digits(n), b);
  }

  lemma LongRoundTrip(payload: Bytes, rest: Bytes)
    requires 56 <= |payload| < Power(8)
    ensures 1 <= |Digits(|payload|)| <= 8
    ensures DecodeLong(Digits(|payload|) + payload + rest, |Digits(|payload|)|) == Ok(Item(payload, rest))
  {
    hide Digits, Power;
    var n := |payload|;
    var d := Digits(n);
    DigitsValue(n);
    DigitsShort(n, 8);
    var buf := d + payload + rest;
    assert buf[..|d|] == d && buf[0] == d[0];
    assert buf[|d|..] == payload + rest;
    SplitExact(payload, rest);
  }

  lemma SplitExact(payload: Bytes, rest: Bytes)
    ensures Split(payload + rest, |payload|) == Ok(Item(payload, rest))
  {
    assert (payload + rest)[..|payload|] == payload && (payload + rest)[|payload|..] == rest;
  }

  lemma ShortRoundTrip(payload: Bytes, list: bool, rest: Bytes)
    requires |payload| < 56 && !(!list && |payload| == 1 && payload[0] < 0x80)
    ensures Decode(Encode(payload, list) + rest, list) == Ok(Item(payload, rest))
  {
    var buf := Encode(payload, list) + rest;
    assert buf[0] == (if list then LIST else TEXT) + |payload|;
    assert buf[1..] == payload + rest;
    SplitExact(payload, rest);
    if |payload| == 1 { assert buf[1] == payload[0]; }
  }

  lemma EncodeLong(payload: Bytes, list: bool)
    requires |payload| >= 56 && |Digits(|payload|)| <= 8
    ensures Encode(payload, list) == [(if list then 0xf7 else 0xb7) + |Digits(|payload|)|] + Digits(|payload|) + payload
  {
  }

  lemma DecodeLongForm(list: bool, k: nat, tail: Bytes)
    requires 1 <= k <= 8
    ensures Decode([(if list then 0xf7 else 0xb7) + k] + tail, list) == DecodeLong(tail, k)
  {
    var buf := [(if list then 0xf7 else 0xb7) + k] + tail;
    assert buf[1..] == tail;
  }

  lemma FramedLong(payload: Bytes, list: bool, rest: Bytes)
    requires 56 <= |payload| < Power(8)
    ensures Decode(Encode(payload, list) + rest, list) == Ok(Item(payload, rest))
  {
    hide Digits, Encode, Decode, DecodeLong;
    var d := Digits(|payload|);
    LongRoundTrip(payload, rest);
    EncodeLong(payload, list);
    DecodeLongForm(list, |d|, d + payload + rest);
    var code: byte := (if list then 0xf7 else 0xb7) + |d|;
    assert [code] + d + payload + rest == [code] + (d + payload + rest);
  }

  /** Decoding undoes encoding and leaves what follows untouched. */
  lemma DecodeEncoded(payload: Bytes, list: bool, rest: Bytes)
    requires |payload| < Power(8)
    ensures Decode(Encode(payload, list) + rest, list) == Ok(Item(payload, rest))
  {
    if !list && |payload| == 1 && payload[0] < 0x80 {
      SplitExact(payload, rest);
    } else if |payload| < 56 {
      ShortRoundTrip(payload, list, rest);
    } else {
      FramedLong(payload, list, rest);
    }
  }

  lemma LongDecoded(buf: Bytes, k: nat)
    requires 0 < k && DecodeLong(buf, k).Ok?
    ensures var item := DecodeLong(buf, k).value;
            |item.payload| >= 56 && Digits(|item.payload|) == buf[..k]
              && buf == Digits(|item.payload|) + item.payload + item.rest
  {
    DigitsOf(buf[..k]);
    assert buf == buf[..k] + buf[k..];
  }

  /** Which long form a first byte announces. */
  lemma LongCase(buf: Bytes, list: bool, k: nat)
    requires buf != [] && 1 <= k <= 8 && buf[0] == (if list then 0xf7 else 0xb7) + k
    ensures Decode(buf, list) == DecodeLong(buf[1..], k)
  {
  }

  lemma ShortCase(buf: Bytes, list: bool, n: nat)
    requires buf != [] && n < 56 && buf[0] == (if list then LIST else TEXT) + n && Decode(buf, list).Ok?
    ensures Decode(buf, list) == Split(buf[1..], n)
    ensures !list && n == 1 ==> |buf| > 1 && buf[1] >= 0x80
  {
  }

  lemma Assemble(code: byte, head: Bytes, payload: Bytes, rest: Bytes, buf: Bytes)
    requires buf != [] && buf[0] == code && buf[1..] == head + payload + rest
    ensures buf == [code] + head + payload + rest
  {
    assert buf == [buf[0]] + buf[1..];
  }

  lemma LongIsEncoded(buf: Bytes, list: bool, k: nat)
    requires buf != [] && 1 <= k <= 8 && buf[0] == (if list then 0xf7 else 0xb7) + k && Decode(buf, list).Ok?
    ensures buf == Encode(Decode(buf, list).value.payload, list) + Decode(buf, list).value.rest
  {
    LongCase(buf, list, k);
    LongDecoded(buf[1..], k);
    var item := DecodeLong(buf[1..], k).value;
    Assemble(buf[0], Digits(|item.payload|), item.payload, item.rest, buf);
    EncodeLong(item.payload, list);
  }

  lemma ShortIsEncoded(buf: Bytes, list: bool, n: nat)
    requires buf != [] && n < 56 && buf[0] == (if list then LIST else TEXT) + n && Decode(buf, list).Ok?
    ensures buf == Encode(Decode(buf, list).value.payload, list) + Decode(buf, list).value.rest
  {
    ShortCase(buf, list, n);
    SplitParts(buf[1..], n);
    var item := Split(buf[1..], n).value;
    assert [] + item.payload == item.payload;
    Assemble(buf[0], [], item.payload, item.rest, buf);
    assert Encode(item.payload, list) == [buf[0]] + [] + item.payload;
  }

  lemma SplitParts(buf: Bytes, n: nat)
    requires Split(buf, n).Ok?
    ensures var item := Split(buf, n).value;
            buf == item.payload + item.rest && |item.payload| == n && (n > 0 ==> item.payload[0] == buf[0])
  {
  }

  /** Decoding accepts nothing but encodings: the frame is the one the payload would get. */
  lemma DecodedIsEncoded(buf: Bytes, list: bool)
    requires Decode(buf, list).Ok?
    ensures buf == Encode(Decode(buf, list).value.payload, list) + Decode(buf, list).value.rest
  {
    if buf[0] < 0x80 {
      assert buf == buf[..1] + buf[1..];
    } else if 0xb8 <= buf[0] <= 0xbf || buf[0] >= 0xf8 {
      LongIsEncoded(buf, list, buf[0] - if list then 0xf7 else 0xb7);
    } else {
      ShortIsEncoded(buf, list, buf[0] - if list then LIST else TEXT);
    }
  }

  // ---------------------------------------------------------------- lists of byte strings

  function Payload(fields: seq<Bytes>): Bytes {
    if fields == [] then [] else Encode(fields[0], false) + Payload(fields[1..])
  }

  function EncodeList(fields: seq<Bytes>): Bytes {
    Encode(Payload(fields), true)
  }

  lemma {:induction false} PayloadAppend(fields: seq<Bytes>, f: Bytes)
    ensures Payload(fields + [f]) == Payload(fields) + Encode(f, false)
  {
    hide Encode;
    if fields == [] {
      assert [f][1..] == [] && fields + [f] == [f];
      assert Payload([f]) == Encode(f, false) + Payload([]);
    } else {
      PayloadAppend(fields[1..], f);
      assert (fields + [f])[1..] == fields[1..] + [f];
    }
  }

  lemma {:induction false} PayloadCovers(fields: seq<Bytes>, i: nat)
    requires i < |fields|
    ensures |fields[i]| <= |Payload(fields)|
  {
    if i > 0 { PayloadCovers(fields[1..], i - 1); }
  }

  lemma NotEmpty(f: Bytes)
    ensures Encode(f, false) != []
  {
  }

  /** Parsing is deterministic: whatever has been read off the front is a prefix of any reading. */
  lemma {:induction false} PrefixUnique(fields: seq<Bytes>, rest: Bytes, all: seq<Bytes>)
    requires Payload(fields) + rest == Payload(all) && |Payload(all)| < Power(8)
    ensures |fields| <= |all| && all[..|fields|] == fields && rest == Payload(all[|fields|..])
    decreases |fields|
  {
    if fields == [] {
      assert all[0..] == all;
    } else {
      NotEmpty(fields[0]);
      assert all != [];
      var f, g := fields[0], all[0];
      var tail := Payload(fields[1..]) + rest;
      PayloadCovers(all, 0);
      assert Payload(all) == Encode(f, false) + tail;
      FirstUnique(f, tail, g, Payload(all[1..]));
      PrefixUnique(fields[1..], rest, all[1..]);
      assert all[|fields|..] == all[1..][|fields| - 1..];
      assert fields == [f] + fields[1..];
    }
  }

  lemma FirstUnique(f: Bytes, x: Bytes, g: Bytes, y: Bytes)
    requires Encode(f, false) + x == Encode(g, false) + y && |Encode(f, false) + x| < Power(8)
    ensures f == g && x == y
  {
    DecodeEncoded(f, false, x);
    DecodeEncoded(g, false, y);
  }

  // ---------------------------------------------------------------- header fields

  /** A fixed byte length, or a bit width for an integer, or neither for free bytes. */
  datatype FieldSpec = Fixed(length: nat) | Integer(bits: nat) | Free

  /** parentHash, sha3Uncles, miner, stateRoot, transactionsRoot, receiptsRoot, logsBloom,
      difficulty, number, gasLimit, gasUsed, timestamp, extraData, mixHash, nonce; then the
      optional fork fields baseFeePerGas, withdrawalsRoot, blobGasUsed, excessBlobGas,
      parentBeaconBlockRoot, requestsHash, balHash, slotNumber. */
  const FIELDS: seq<FieldSpec> := [
    Fixed(32), Fixed(32), Fixed(20), Fixed(32), Fixed(32), Fixed(32), Fixed(256),
    Integer(256), Integer(64), Integer(64), Integer(64), Integer(64), Free, Fixed(32), Fixed(8),
    Integer(256), Fixed(32), Integer(64), Integer(64), Fixed(32), Fixed(32), Fixed(32), Integer(64)]

  const REQUIRED := 15
  const MAX_HEADER := 104_448

  /** A header field as the RPC reports it: absent, or a value with what it parses to as a
      hex quantity and as hex bytes, where it parses at all. */
  datatype RpcField = Null | Value(quantity: Option<nat>, blob: Option<Bytes>)

  /** The byte string a field contributes. */
  function FieldBytes(i: nat, f: RpcField): Result<Bytes>
    requires i < |FIELDS|
  {
    if f.Null? then if i >= REQUIRED then Ok([]) else Err("RPC header missing field")
    else match FIELDS[i]
      case Integer(bits) =>
        if f.quantity.None? then Err("invalid JSON-RPC quantity")
        else if f.quantity.value >= Power(bits / 8) then Err("quantity exceeds its width")
        else Ok(Digits(f.quantity.value))
      case Fixed(length) =>
        if f.blob.None? then Err("invalid hex")
        else if |f.blob.value| != length then Err("invalid header field length")
        else Ok(f.blob.value)
      case Free => if f.blob.None? then Err("invalid hex") else Ok(f.blob.value)
  }

  /** One more than the last field that is required or present. */
  ghost predicate FieldCount(header: seq<RpcField>, n: nat)
    requires |header| == |FIELDS|
  {
    && REQUIRED <= n <= |FIELDS| && (n > REQUIRED ==> !header[n - 1].Null?)
    && forall i :: n <= i < |FIELDS| ==> header[i].Null?
  }

  /** These are the fields of the header, gaps read as empty strings. */
  ghost predicate FieldsOf(header: seq<RpcField>, fields: seq<Bytes>)
    requires |header| == |FIELDS|
  {
    FieldCount(header, |fields|) && forall i :: 0 <= i < |fields| ==> FieldBytes(i, header[i]) == Ok(fields[i])
  }

  ghost predicate GoodField(i: nat, value: Bytes)
    requires i < |FIELDS|
  {
    match FIELDS[i]
    case Integer(bits) => (value == [] || value[0] != 0) && |value| <= bits / 8
    case Fixed(length) => |value| == length || (i >= REQUIRED && value == [])
    case Free => true
  }

  ghost predicate GoodFields(fields: seq<Bytes>) {
    REQUIRED <= |fields| <= |FIELDS| && forall i :: 0 <= i < |fields| ==> GoodField(i, fields[i])
  }

  lemma FieldIsGood(i: nat, f: RpcField)
    requires i < |FIELDS| && FieldBytes(i, f).Ok?
    ensures GoodField(i, FieldBytes(i, f).value)
  {
    if !f.Null? && FIELDS[i].Integer? {
      DigitsValue(f.quantity.value);
      DigitsShort(f.quantity.value, FIELDS[i].bits / 8);
    }
  }

  /** Encodes the fields up to the last present one and checks the block hash. */
  method EncodeRpcHeader(header: seq<RpcField>, hash: Bytes, keccak: Bytes -> Bytes) returns (r: Result<Bytes>)
    requires |header| == |FIELDS|
    ensures r.Ok? ==>
            exists fields :: FieldsOf(header, fields) && r.value == EncodeList(fields) && keccak(r.value) == hash
    ensures r.Err? ==> forall fields :: FieldsOf(header, fields) ==> keccak(EncodeList(fields)) != hash
    ensures r.Ok? ==> WellSized(header) && exists fields ::
                      WireFields(header, fields) && r.value == EncodeList(fields) && keccak(r.value) == hash
    ensures r.Err? && WellSized(header) ==>
            forall fields :: WireFields(header, fields) ==> keccak(EncodeList(fields)) != hash
  {
    hide Encode, FieldBytes, WellSized, WireFields;
    forall fields ensures FieldsOf(header, fields) <==> WellSized(header) && WireFields(header, fields) {
      HeaderFields(header, fields);
    }
    var n := |FIELDS|;
    while n > REQUIRED && header[n - 1].Null?
      invariant REQUIRED <= n <= |FIELDS| && forall i :: n <= i < |FIELDS| ==> header[i].Null?
    {
      n := n - 1;
    }
    var fields, payload := [], [];
    for i := 0 to n
      invariant |fields| == i && payload == Payload(fields)
      invariant forall j :: 0 <= j < i ==> FieldBytes(j, header[j]) == Ok(fields[j])
    {
      var bytes := FieldBytes(i, header[i]);
      AllEncode(header, n, i);
      if bytes.Err? { return Err(bytes.reason); }
      PayloadAppend(fields, bytes.value);
      payload := payload + Encode(bytes.value, false);
      fields := fields + [bytes.value];
    }
    assert FieldsOf(header, fields);
    var encoded := Encode(payload, true);
    if keccak(encoded) != hash {
      forall other | FieldsOf(header, other) ensures other == fields { SameFields(header, fields, other); }
      return Err("encoded RPC header does not match its block hash");
    }
    return Ok(encoded);
  }

  /** A header that has fields at all encodes each of them. */
  lemma AllEncode(header: seq<RpcField>, n: nat, i: nat)
    requires |header| == |FIELDS| && FieldCount(header, n) && i < n
    ensures forall fields :: FieldsOf(header, fields) ==> FieldBytes(i, header[i]).Ok?
  {
    forall fields | FieldsOf(header, fields) ensures FieldBytes(i, header[i]).Ok? { assert |fields| == n; }
  }

  lemma SameFields(header: seq<RpcField>, a: seq<Bytes>, b: seq<Bytes>)
    requires |header| == |FIELDS| && FieldsOf(header, a) && FieldsOf(header, b)
    ensures a == b
  {
    assert |a| == |b|;
    forall i | 0 <= i < |a| ensures a[i] == b[i] { assert FieldBytes(i, header[i]) == Ok(a[i]); }
  }

  // ---------------------------------------------------------------- verification

  datatype Summary = Summary(hash: Bytes, parentHash: Bytes, stateRoot: Bytes, number: nat, timestamp: nat)

  ghost predicate Matches(fields: seq<Bytes>, summary: Summary)
    requires |fields| >= REQUIRED
  {
    && |summary.hash| == 32 && |summary.parentHash| == 32 && |summary.stateRoot| == 32
    && fields[0] == summary.parentHash && fields[3] == summary.stateRoot
    && BigEndian(fields[8]) == summary.number && BigEndian(fields[11]) == summary.timestamp
  }

  /** The encoding is the canonical list of these fields. */
  ghost predicate Encodes(encoded: Bytes, fields: seq<Bytes>) {
    |encoded| <= MAX_HEADER && encoded == EncodeList(fields) && GoodFields(fields)
  }

  /** Splits the payload into byte strings, at most as many as there are header fields. */
  method ParseFields(payload: Bytes) returns (r: Result<seq<Bytes>>)
    requires |payload| <= MAX_HEADER
    ensures r.Ok? ==> Payload(r.value) == payload && |r.value| <= |FIELDS|
    ensures r.Err? ==> forall all :: Payload(all) == payload ==> |all| > |FIELDS|
  {
    var fields, rest := [], payload;
    while rest != []
      invariant Payload(fields) + rest == payload && |fields| <= |FIELDS|
      decreases |rest|
    {
      var item := Decode(rest, false);
      Readings(fields, rest);
      if item.Err? { return Err(item.reason); }
      FieldRead(fields, rest);
      fields, rest := fields + [item.value.payload], item.value.rest;
      if |fields| > |FIELDS| {
        Readings(fields, rest);
        return Err("unsupported header field count");
      }
    }
    return Ok(fields);
  }

  /** Any reading of the whole payload has read these fields first and, if bytes are left, goes on. */
  lemma Readings(fields: seq<Bytes>, rest: Bytes)
    requires |Payload(fields) + rest| <= MAX_HEADER
    ensures forall all :: Payload(all) == Payload(fields) + rest ==>
            |fields| <= |all| && (rest != [] ==> Decode(rest, false).Ok?)
  {
    forall all | Payload(all) == Payload(fields) + rest
      ensures |fields| <= |all| && (rest != [] ==> Decode(rest, false).Ok?)
    {
      PrefixUnique(fields, rest, all);
      if rest != [] { FieldFollows(fields, rest, all); }
    }
  }

  lemma FieldRead(fields: seq<Bytes>, rest: Bytes)
    requires Decode(rest, false).Ok?
    ensures var item := Decode(rest, false).value;
            Payload(fields + [item.payload]) + item.rest == Payload(fields) + rest && |item.rest| < |rest|
  {
    var item := Decode(rest, false).value;
    DecodedIsEncoded(rest, false);
    PayloadAppend(fields, item.payload);
    NotEmpty(item.payload);
    assert Payload(fields) + (Encode(item.payload, false) + item.rest)
      == Payload(fields) + Encode(item.payload, false) + item.rest;
  }

  /** Where any reading of the payload goes on, decoding succeeds. */
  lemma FieldFollows(fields: seq<Bytes>, rest: Bytes, all: seq<Bytes>)
    requires Payload(fields) + rest == Payload(all) && |Payload(all)| < Power(8) && rest != []
    ensures Decode(rest, false).Ok?
  {
    PrefixUnique(fields, rest, all);
    var tail := all[|fields|..];
    assert tail != [];
    PayloadCovers(tail, 0);
    DecodeEncoded(tail[0], false, Payload(tail[1..]));
  }

  method CheckFields(fields: seq<Bytes>) returns (ok: bool)
    requires |fields| <= |FIELDS|
    ensures ok <==> GoodFields(fields)
  {
    if |fields| < REQUIRED { return false; }
    for i := 0 to |fields|
      invariant forall j :: 0 <= j < i ==> GoodField(j, fields[j])
    {
      var value, spec := fields[i], FIELDS[i];
      if spec.Integer? && (!(value == [] || value[0] != 0) || |value| > spec.bits / 8) { return false; }
      if spec.Fixed? && |value| != spec.length && !(i >= REQUIRED && value == []) { return false; }
    }
    return true;
  }

  /** Takes the whole encoding apart. Succeeds exactly for a canonical list of good fields
      within the size cap, and returns those fields. */
  method DecodeHeader(encoded: Bytes) returns (r: Result<seq<Bytes>>)
    ensures r.Ok? ==> Encodes(encoded, r.value)
    ensures r.Err? ==> forall fields :: !Encodes(encoded, fields)
  {
    if |encoded| > MAX_HEADER { return Err("oversized block header"); }
    var outer := Decode(encoded, true);
    forall fields | Encodes(encoded, fields) ensures outer == Ok(Item(Payload(fields), [])) {
      WholeList(encoded, fields);
    }
    if outer.Err? { return Err("invalid RLP block header"); }
    if outer.value.rest != [] { return Err("trailing bytes after RLP header"); }
    DecodedIsEncoded(encoded, true);
    assert encoded == Encode(outer.value.payload, true) + [];
    var parsed := ParseFields(outer.value.payload);
    if parsed.Err? { return Err(parsed.reason); }
    forall fields | Encodes(encoded, fields) ensures fields == parsed.value { PayloadUnique(fields, parsed.value); }
    var good := CheckFields(parsed.value);
    if !good { return Err("invalid header field"); }
    return Ok(parsed.value);
  }

  lemma WholeList(encoded: Bytes, fields: seq<Bytes>)
    requires Encodes(encoded, fields)
    ensures Decode(encoded, true) == Ok(Item(Payload(fields), []))
  {
    DecodeEncoded(Payload(fields), true, []);
    assert encoded + [] == encoded;
  }

  lemma PayloadUnique(a: seq<Bytes>, b: seq<Bytes>)
    requires Payload(a) == Payload(b) && |Payload(b)| < Power(8)
    ensures a == b
  {
    assert Payload(a) + [] == Payload(a);
    PrefixUnique(a, [], b);
    NoPayload(b[|a|..]);
  }

  lemma NoPayload(fields: seq<Bytes>)
    ensures Payload(fields) == [] <==> fields == []
  {
    if fields != [] { NotEmpty(fields[0]); }
  }

  /** One encoding has one list of fields. */
  lemma EncodesUnique(encoded: Bytes, a: seq<Bytes>, b: seq<Bytes>)
    requires Encodes(encoded, a) && Encodes(encoded, b)
    ensures a == b
  {
    WholeList(encoded, a);
    WholeList(encoded, b);
    PayloadUnique(a, b);
  }

  ghost predicate Accepted(encoded: Bytes, summary: Summary, expected: Option<Bytes>, keccak: Bytes -> Bytes) {
    && keccak(encoded) == summary.hash && (expected.Some? ==> expected.value == summary.hash)
    && exists fields :: Encodes(encoded, fields) && Matches(fields, summary)
  }

  /** Accepts an encoding exactly when it is the canonical list of good header fields, hashes
      to the summary's (and the expected) hash and agrees with the summary. */
  method VerifyHeader(encoded: Bytes, summary: Summary, expected: Option<Bytes>, keccak: Bytes -> Bytes)
    returns (r: Result<Bytes>)
    ensures r.Ok? <==> Accepted(encoded, summary, expected, keccak)
    ensures r.Ok? ==> r.value == summary.hash
  {
    var decoded := DecodeHeader(encoded);
    if decoded.Err? { return Err(decoded.reason); }
    var fields, digest := decoded.value, keccak(encoded);
    forall other | Encodes(encoded, other) ensures other == fields { EncodesUnique(encoded, fields, other); }
    if |summary.hash| != 32 || digest != summary.hash {
      return Err("encoded header differs from checkpoint block hash");
    }
    if expected.Some? && (|expected.value| != 32 || digest != expected.value) {
      return Err("encoded header differs from expected hash");
    }
    if !(|summary.parentHash| == 32 && |summary.stateRoot| == 32
         && fields[0] == summary.parentHash && fields[3] == summary.stateRoot
         && BigEndian(fields[8]) == summary.number && BigEndian(fields[11]) == summary.timestamp) {
      return Err("checkpoint metadata differs from encoded header");
    }
    return Ok(digest);
  }

  /** The summary taken from the RPC fields themselves. */
  ghost predicate Summarizes(header: seq<RpcField>, summary: Summary)
    requires |header| == |FIELDS|
  {
    && |summary.hash| == 32
    && header[0].Value? && header[0].blob == Some(summary.parentHash)
    && header[3].Value? && header[3].blob == Some(summary.stateRoot)
    && header[8].Value? && header[8].quantity == Some(summary.number)
    && header[11].Value? && header[11].quantity == Some(summary.timestamp)
  }

  lemma FixedField(i: nat, f: RpcField, value: Bytes)
    requires i < |FIELDS| && FIELDS[i].Fixed? && f.Value? && f.blob.Some? && FieldBytes(i, f) == Ok(value)
    ensures value == f.blob.value && |value| == FIELDS[i].length
  {
  }

  lemma IntegerField(i: nat, f: RpcField, value: Bytes)
    requires i < |FIELDS| && FIELDS[i].Integer? && f.Value? && f.quantity.Some? && FieldBytes(i, f) == Ok(value)
    ensures BigEndian(value) == f.quantity.value
  {
    DigitsValue(f.quantity.value);
  }

  lemma FieldsMatch(header: seq<RpcField>, fields: seq<Bytes>, summary: Summary)
    requires |header| == |FIELDS| && FieldsOf(header, fields) && Summarizes(header, summary)
    ensures Matches(fields, summary)
  {
    FixedField(0, header[0], fields[0]);
    FixedField(3, header[3], fields[3]);
    IntegerField(8, header[8], fields[8]);
    IntegerField(11, header[11], fields[11]);
  }

  lemma FieldsGood(header: seq<RpcField>, fields: seq<Bytes>)
    requires |header| == |FIELDS| && FieldsOf(header, fields)
    ensures GoodFields(fields)
  {
    forall i | 0 <= i < |fields| ensures GoodField(i, fields[i]) { FieldIsGood(i, header[i]); }
  }

  /** Round trip: what a header encodes to within the size cap is accepted with its summary,
      and parsing recovers exactly the encoded fields, a gap as the empty string. */
  lemma EncodedHeaderIsAccepted(header: seq<RpcField>, fields: seq<Bytes>, summary: Summary)
    requires |header| == |FIELDS| && FieldsOf(header, fields) && |EncodeList(fields)| <= MAX_HEADER
             && Summarizes(header, summary)
    ensures Encodes(EncodeList(fields), fields) && Matches(fields, summary)
    ensures forall other :: Encodes(EncodeList(fields), other) ==> other == fields
    ensures forall i :: 0 <= i < |fields| && header[i].Null? ==> fields[i] == []
  {
    FieldsGood(header, fields);
    FieldsMatch(header, fields, summary);
    forall other | Encodes(EncodeList(fields), other) ensures other == fields {
      EncodesUnique(EncodeList(fields), fields, other);
    }
    forall i | 0 <= i < |fields| && header[i].Null? ensures fields[i] == [] {
      assert FieldBytes(i, header[i]) == Ok(fields[i]);
    }
  }

  /** Encoding and verifying in sequence succeed together. */
  method RoundTrip(header: seq<RpcField>, summary: Summary, keccak: Bytes -> Bytes)
    returns (encoded: Result<Bytes>, verified: Result<Bytes>)
    requires |header| == |FIELDS| && Summarizes(header, summary)
    ensures encoded.Ok? && |encoded.value| <= MAX_HEADER ==> verified == Ok(summary.hash)
  {
    encoded := EncodeRpcHeader(header, summary.hash, keccak);
    verified := Err("not encoded");
    if encoded.Ok? {
      ghost var fields :| FieldsOf(header, fields) && encoded.value == EncodeList(fields)
        && keccak(encoded.value) == summary.hash;
      if |encoded.value| <= MAX_HEADER { EncodedHeaderIsAccepted(header, fields, summary); }
      verified := VerifyHeader(encoded.value, summary, None, keccak);
    }
  }

  // ---------------------------------------------------------------- in lengths

  /** Quantity fields: difficulty and baseFeePerGas; number, gasLimit, gasUsed, timestamp,
      blobGasUsed, excessBlobGas and slotNumber. */
  predicate WideQuantity(i: nat) {
    i == 7 || i == 15
  }

  predicate Quantity(i: nat) {
    WideQuantity(i) || 8 <= i <= 11 || i == 17 || i == 18 || i == 22
  }

  /** The length of a field of bytes; extraData has none. */
  function Length(i: nat): Option<nat> {
    match i
    case 2 => Some(20)
    case 6 => Some(256)
    case 12 => None
    case 14 => Some(8)
    case _ => Some(32)
  }

  /** An RPC field that header field i accepts: a quantity below 2^256 or 2^64, bytes of the field's
      length, or from field 15 on nothing. */
  predicate Fits(i: nat, f: RpcField) {
    if f.Null? then i >= 15
    else if WideQuantity(i) then f.quantity.Some? && f.quantity.value < TWO_TO_256
    else if Quantity(i) then f.quantity.Some? && f.quantity.value < TWO_TO_64
    else f.blob.Some? && (Length(i).Some? ==> |f.blob.value| == Length(i).value)
  }

  /** What a field puts on the wire: a quantity without leading zeros, the bytes, or nothing. */
  predicate Wire(i: nat, f: RpcField, bytes: Bytes) {
    if f.Null? then bytes == []
    else if Quantity(i) then f.quantity == Some(BigEndian(bytes)) && (bytes == [] || bytes[0] != 0)
    else f.blob == Some(bytes)
  }

  /** The table in lengths. */
  lemma TableIs(i: nat)
    requires i < 23
    ensures |FIELDS| == 23
    ensures FIELDS[i] == if WideQuantity(i) then Integer(256) else if Quantity(i) then Integer(64)
                         else if Length(i).Some? then Fixed(Length(i).value) else Free
  {
  }

  lemma QuantityBytes(n: nat, bytes: Bytes)
    ensures bytes == Digits(n) <==> n == BigEndian(bytes) && (bytes == [] || bytes[0] != 0)
  {
    DigitsValue(n);
    if n == BigEndian(bytes) && (bytes == [] || bytes[0] != 0) { CanonicalDigits(Digits(n), bytes); }
  }

  lemma FieldBytesAre(i: nat, f: RpcField, bytes: Bytes)
    requires i < 23
    ensures FieldBytes(i, f) == Ok(bytes) <==> Fits(i, f) && Wire(i, f, bytes)
  {
    TableIs(i);
    Powers();
    hide Power, Digits, BigEndian, WideQuantity, Quantity, Length;
    if f.Value? {
      if f.quantity.Some? { QuantityBytes(f.quantity.value, bytes); }
      WideIsQuantity(i);
    }
  }

  lemma WideIsQuantity(i: nat)
    ensures WideQuantity(i) ==> Quantity(i)
  {
  }

  /** A header that can be encoded: 23 fields, each of which fits. */
  predicate WellSized(header: seq<RpcField>) {
    |header| == 23 && forall i :: 0 <= i < 23 ==> Fits(i, header[i])
  }

  /** The wire fields of the header: through the last one present, and fifteen at least. */
  predicate WireFields(header: seq<RpcField>, fields: seq<Bytes>)
    requires |header| == 23
  {
    && 15 <= |fields| <= 23 && (|fields| > 15 ==> !header[|fields| - 1].Null?)
    && (forall i :: |fields| <= i < 23 ==> header[i].Null?)
    && forall i :: 0 <= i < |fields| ==> Wire(i, header[i], fields[i])
  }

  /** A header has fields exactly when it is well sized, and then they are its wire fields. */
  lemma HeaderFields(header: seq<RpcField>, fields: seq<Bytes>)
    requires |header| == 23
    ensures |FIELDS| == 23
    ensures FieldsOf(header, fields) <==> WellSized(header) && WireFields(header, fields)
  {
    hide FieldBytes, Fits, Wire;
    forall i | 0 <= i < |fields| && i < 23
      ensures FieldBytes(i, header[i]) == Ok(fields[i]) <==> Fits(i, header[i]) && Wire(i, header[i], fields[i])
    {
      FieldBytesAre(i, header[i], fields[i]);
    }
    forall i | 15 <= i < 23 && header[i].Null? ensures Fits(i, header[i]) { NullFits(i, header[i]); }
  }

  lemma NullFits(i: nat, f: RpcField)
    requires f.Null? && i >= 15
    ensures Fits(i, f)
  {
  }

  /** The wire form of a field that fits. */
  lemma WireOf(i: nat, f: RpcField) returns (bytes: Bytes)
    requires Fits(i, f)
    ensures Wire(i, f, bytes)
  {
    if f.Null? {
      bytes := [];
    } else if Quantity(i) {
      bytes := Digits(f.quantity.value);
      DigitsValue(f.quantity.value);
    } else {
      bytes := f.blob.value;
    }
  }

  lemma {:induction false} WireAll(header: seq<RpcField>, n: nat) returns (fields: seq<Bytes>)
    requires WellSized(header) && n <= 23
    ensures |fields| == n && forall i :: 0 <= i < n ==> Wire(i, header[i], fields[i])
  {
    if n == 0 {
      fields := [];
    } else {
      hide Fits, Wire;
      fields := WireAll(header, n - 1);
      var bytes := WireOf(n - 1, header[n - 1]);
      fields := fields + [bytes];
    }
  }

  lemma {:induction false} LastPresent(header: seq<RpcField>, n: nat) returns (m: nat)
    requires |header| == 23 && 15 <= n <= 23 && forall i :: n <= i < 23 ==> header[i].Null?
    ensures 15 <= m <= 23 && (m > 15 ==> !header[m - 1].Null?)
    ensures forall i :: m <= i < 23 ==> header[i].Null?
  {
    m := n;
    if n > 15 && header[n - 1].Null? { m := LastPresent(header, n - 1); }
  }

  /** Every well sized header has wire fields, and they encode: the encoder can fail on it for its
      hash only. */
  lemma WellSizedEncodes(header: seq<RpcField>) returns (fields: seq<Bytes>)
    requires WellSized(header)
    ensures WireFields(header, fields) && FieldsOf(header, fields)
  {
    hide Fits, Wire;
    var n := LastPresent(header, 23);
    fields := WireAll(header, n);
    HeaderFields(header, fields);
  }

  /** A wire field that header field i accepts: at most 32 or 8 bytes without a leading zero, bytes of
      the field's length, or from field 15 on nothing. */
  predicate WireFits(i: nat, bytes: Bytes) {
    if WideQuantity(i) then |bytes| <= 32 && (bytes == [] || bytes[0] != 0)
    else if Quantity(i) then |bytes| <= 8 && (bytes == [] || bytes[0] != 0)
    else Length(i).Some? ==> |bytes| == Length(i).value || (i >= 15 && bytes == [])
  }

  /** What the verifier takes for a header: the canonical list of fifteen to 23 byte strings that fit,
      of 104448 bytes at most. */
  lemma EncodesExactly(encoded: Bytes, fields: seq<Bytes>)
    ensures Encodes(encoded, fields) <==>
            && |encoded| <= 104_448 && encoded == EncodeList(fields) && 15 <= |fields| <= 23
            && forall i :: 0 <= i < |fields| ==> WireFits(i, fields[i])
  {
    hide EncodeList;
    forall i | 0 <= i < |fields| && i < 23 ensures GoodField(i, fields[i]) <==> WireFits(i, fields[i]) {
      GoodIs(i, fields[i]);
    }
  }

  lemma GoodIs(i: nat, value: Bytes)
    requires i < 23
    ensures GoodField(i, value) <==> WireFits(i, value)
  {
  }

  /** What precedes the payload of a list and of a byte string. */
  lemma Framing(payload: Bytes, list: bool)
    requires |payload| < TWO_TO_64
    ensures var short: int, long: int := if list then 0xc0 else 0x80, if list then 0xf7 else 0xb7;
            var n, encoded := |payload|, Encode(payload, list);
            if !list && n == 1 && payload[0] < 0x80 then encoded == payload
            else if n <= 55 then encoded == [short + n] + payload
            else exists size: Bytes ::
              && BigEndian(size) == n && 1 <= |size| <= 8 && size[0] != 0 && encoded == [long + |size|] + size + payload
  {
    Powers();
    hide Power;
    var n := |payload|;
    if n > 55 {
      DigitsValue(n);
      DigitsShort(n, 8);
      EncodeLong(payload, list);
    }
  }
}
