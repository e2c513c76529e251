/** Frames on the wire: joining encoded elements, decoding a payload and unpacking a message. */
module Frames {
  import opened BatchTypes
  import opened Decimal
  import opened MsgPack

  const HEADER_VERSION := "Brokerfx-Frame"
  const HEADER_COUNT := "Brokerfx-Frame-Count"
  const HEADER_INDEX := "Brokerfx-Frame-Index"
  const MSG_ID_HEADER := "Nats-Msg-Id"
  const VERSION := "1"
  const MAX_ARRAY_HEADER: nat := 5

  /** An element codec: what it writes and how it reads an element off the front of the data. */
  datatype Codec = Codec(encode: Element -> Option<seq<Byte>>, decode: seq<Byte> -> Option<(Element, seq<Byte>)>)

  /** An encoded element reads back whatever follows it, and nothing can be read from no data. */
  ghost predicate SelfDelimiting(codec: Codec) {
    && codec.decode([]) == None
    && forall e: Element, rest: seq<Byte> ::
         codec.encode(e).Some? ==> codec.decode(codec.encode(e).value + rest) == Some((e, rest))
  }

  function MsgPackCodec(): Codec {
    Codec(e => if Encodable(e) then Some(WriteElement(e)) else None, ReadElement)
  }

  lemma MsgPackSelfDelimiting()
    ensures SelfDelimiting(MsgPackCodec())
  {
    hide WriteElement;
    forall e: Element, rest: seq<Byte> | Encodable(e) ensures ReadElement(WriteElement(e) + rest) == Some((e, rest)) {
      ElementReads(e, rest);
    }
    assert ReadHeader(MAP, []) == None;
  }

  function Concat(encoded: seq<seq<Byte>>): seq<Byte> {
    if encoded == [] then [] else encoded[0] + Concat(encoded[1..])
  }

  lemma {:induction false} ConcatSnoc(encoded: seq<seq<Byte>>, one: seq<Byte>)
    ensures Concat(encoded + [one]) == Concat(encoded) + one
  {
    if encoded == [] {
      assert [one][1..] == [];
      assert encoded + [one] == [one];
    } else {
      ConcatSnoc(encoded[1..], one);
      assert (encoded + [one])[1..] == encoded[1..] + [one];
    }
  }

  /** The payload of a frame. */
  function Joined(encoded: seq<seq<Byte>>): seq<Byte> {
    Header(ARRAY, |encoded|) + Concat(encoded)
  }

  method Join(encoded: seq<seq<Byte>>) returns (data: seq<Byte>)
    ensures data == Joined(encoded)
  {
    data := Header(ARRAY, |encoded|);
    var n := 0;
    while n < |encoded|
      invariant 0 <= n <= |encoded|
      invariant data == Header(ARRAY, |encoded|) + Concat(encoded[..n])
    {
      assert encoded[..n + 1] == encoded[..n] + [encoded[n]];
      ConcatSnoc(encoded[..n], encoded[n]);
      data := data + encoded[n];
      n := n + 1;
    }
    assert encoded[..n] == encoded;
  }

  /** The first n elements of data and what is left. */
  function DecodeN(codec: Codec, n: nat, data: seq<Byte>): Option<(seq<Element>, seq<Byte>)> {
    if n == 0 then Some(([], data))
    else
      var init := DecodeN(codec, n - 1, data);
      if init.None? then None
      else
        var next := codec.decode(init.value.1);
        if next.None? then None else Some((init.value.0 + [next.value.0], next.value.1))
  }

  /** The elements of a payload: a count above zero, that many elements and nothing behind them. */
  function DecodeFrame(codec: Codec, data: seq<Byte>): Option<seq<Element>> {
    var header := ReadArrayLen(data);
    if header.None? || header.value.0 <= 0 then None
    else
      var read := DecodeN(codec, header.value.0, header.value.1);
      if read.None? || read.value.1 != [] then None else Some(read.value.0)
  }

  lemma {:induction false} DecodeFails(codec: Codec, m: nat, n: nat, data: seq<Byte>)
    requires m <= n && DecodeN(codec, m, data) == None
    ensures DecodeN(codec, n, data) == None
  {
    if m < n {
      DecodeFails(codec, m, n - 1, data);
    }
  }

  method Decode(codec: Codec, data: seq<Byte>) returns (elements: Option<seq<Element>>)
    ensures elements == DecodeFrame(codec, data)
  {
    var header := ReadArrayLen(data);
    if header.None? {
      return None;
    }
    var (count, left) := header.value;
    if count <= 0 {
      return None;
    }
    var decoded: seq<Element> := [];
    var i := 0;
    while i < count
      invariant 0 <= i <= count
      invariant DecodeN(codec, i, header.value.1) == Some((decoded, left))
    {
      var next := codec.decode(left);
      if next.None? {
        DecodeFails(codec, i + 1, count, header.value.1);
        return None;
      }
      decoded, left := decoded + [next.value.0], next.value.1;
      i := i + 1;
    }
    if left != [] {
      return None;
    }
    return Some(decoded);
  }

  /** encoded is the encoding of elements, one by one. */
  ghost predicate EncodedAs(codec: Codec, elements: seq<Element>, encoded: seq<seq<Byte>>) {
    |elements| == |encoded| && forall k :: 0 <= k < |elements| ==> codec.encode(elements[k]) == Some(encoded[k])
  }

  lemma {:induction false} DecodeEncoded(codec: Codec, elements: seq<Element>, encoded: seq<seq<Byte>>, n: nat, extra: seq<Byte>)
    requires SelfDelimiting(codec) && EncodedAs(codec, elements, encoded) && n <= |elements|
    ensures DecodeN(codec, n, Concat(encoded) + extra) == Some((elements[..n], Concat(encoded[n..]) + extra))
  {
    if n == 0 {
      assert encoded[0..] == encoded;
    } else {
      DecodeEncoded(codec, elements, encoded, n - 1, extra);
      var rest := Concat(encoded[n..]) + extra;
      assert encoded[n - 1..][1..] == encoded[n..] && encoded[n - 1..][0] == encoded[n - 1];
      assert Concat(encoded[n - 1..]) + extra == encoded[n - 1] + rest;
      assert codec.decode(codec.encode(elements[n - 1]).value + rest) == Some((elements[n - 1], rest));
      assert elements[..n] == elements[..n - 1] + [elements[n - 1]];
    }
  }

  /** A joined payload decodes to its elements; with a byte behind it, it is refused. */
  lemma JoinedDecodes(codec: Codec, elements: seq<Element>, encoded: seq<seq<Byte>>, extra: seq<Byte>)
    requires SelfDelimiting(codec) && EncodedAs(codec, elements, encoded) && 0 < |elements| < WIDE
    ensures DecodeFrame(codec, Joined(encoded) + extra) == if extra == [] then Some(elements) else None
  {
    hide SelfDelimiting, EncodedAs, DecodeN, ReadArrayLen;
    var n := |elements|;
    assert |encoded| == n by { EncodedLength(codec, elements, encoded); }
    var body := Concat(encoded) + extra;
    assert Joined(encoded) + extra == Header(ARRAY, n) + body;
    ArrayHeaderReads(n, body);
    DecodeEncoded(codec, elements, encoded, n, extra);
    assert encoded[n..] == [] && elements[..n] == elements && [] + extra == extra;
  }

  lemma EncodedLength(codec: Codec, elements: seq<Element>, encoded: seq<seq<Byte>>)
    requires EncodedAs(codec, elements, encoded)
    ensures |encoded| == |elements|
  {
  }

  /** A payload whose array header has any other count than its elements is refused. */
  lemma WrongCountRefused(codec: Codec, elements: seq<Element>, encoded: seq<seq<Byte>>, m: nat)
    requires SelfDelimiting(codec) && EncodedAs(codec, elements, encoded) && m < WIDE
    ensures m != |elements| ==> DecodeFrame(codec, Header(ARRAY, m) + Concat(encoded)) == None
  {
    var n := |elements|;
    var body := Concat(encoded);
    ArrayHeaderReads(m, body);
    assert body + [] == body;
    if 0 < m < n {
      DecodeEncoded(codec, elements, encoded, m, []);
      EncodedNotEmpty(codec, elements[m], []);
      assert Concat(encoded[m..]) == encoded[m] + Concat(encoded[m..][1..]);
    } else if m > n {
      DecodeEncoded(codec, elements, encoded, n, []);
      assert encoded[n..] == [] && Concat(encoded[n..]) + [] == [];
      assert DecodeN(codec, n, body) == Some((elements[..n], []));
      DecodeFails(codec, n + 1, m, body);
    }
  }

  lemma EncodedNotEmpty(codec: Codec, e: Element, none: seq<Byte>)
    requires SelfDelimiting(codec) && codec.encode(e).Some? && none == []
    ensures codec.encode(e).value != []
  {
    assert codec.decode(codec.encode(e).value + none) == Some((e, none));
    assert codec.encode(e).value + none == codec.encode(e).value;
  }

  /** A received message. */
  datatype Message = Message(subject: string, headers: seq<Entry>, data: seq<Byte>)

  datatype Unpacked = Single(msg: Message) | UnknownVersion | BadFrame | Elements(msgs: seq<Message>)

  /** The first value of a header, or the empty string. */
  function Get(headers: seq<Entry>, key: string): string {
    if headers == [] then ""
    else if headers[0].key == key then (if headers[0].values == [] then "" else headers[0].values[0])
    else Get(headers[1..], key)
  }

  function Set(headers: seq<Entry>, key: string, value: string): seq<Entry> {
    if headers == [] then [Entry(key, [value])]
    else if headers[0].key == key then [Entry(key, [value])] + headers[1..]
    else [headers[0]] + Set(headers[1..], key, value)
  }

  predicate IsFrame(msg: Message) {
    Get(msg.headers, HEADER_VERSION) != ""
  }

  /** Element i of a frame as a message of its own. */
  function ElementMessage(e: Element, i: nat): Message {
    Message(e.subject, Set(e.headers, HEADER_INDEX, Itoa(i)), e.payload)
  }

  function Unpack(codec: Codec, msg: Message): Unpacked {
    if !IsFrame(msg) then Single(msg)
    else if Get(msg.headers, HEADER_VERSION) != VERSION then UnknownVersion
    else
      var decoded := DecodeFrame(codec, msg.data);
      if decoded.None? then BadFrame
      else
        var elements := decoded.value;
        if Get(msg.headers, HEADER_COUNT) != Itoa(|elements|) then BadFrame
        else if exists i :: 0 <= i < |elements| && elements[i].subject != msg.subject then BadFrame
        else Elements(seq(|elements|, i requires 0 <= i < |elements| => ElementMessage(elements[i], i)))
  }

  method UnpackMessage(codec: Codec, msg: Message) returns (r: Unpacked)
    ensures r == Unpack(codec, msg)
  {
    if !IsFrame(msg) {
      return Single(msg);
    }
    if Get(msg.headers, HEADER_VERSION) != VERSION {
      return UnknownVersion;
    }
    var decoded := Decode(codec, msg.data);
    if decoded.None? {
      return BadFrame;
    }
    var elements := decoded.value;
    if Get(msg.headers, HEADER_COUNT) != Itoa(|elements|) {
      return BadFrame;
    }
    var msgs: seq<Message> := [];
    var i := 0;
    while i < |elements|
      invariant 0 <= i <= |elements| && |msgs| == i
      invariant forall k :: 0 <= k < i ==> elements[k].subject == msg.subject && msgs[k] == ElementMessage(elements[k], k)
    {
      if elements[i].subject != msg.subject {
        return BadFrame;
      }
      msgs := msgs + [ElementMessage(elements[i], i)];
      i := i + 1;
    }
    return Elements(msgs);
  }

  /** The headers of a frame with the given element ids; msgId is the hash that names the frame. */
  function WireHeaders(msgId: seq<string> -> string, ids: seq<string>): seq<Entry> {
    [Entry(HEADER_VERSION, [VERSION]), Entry(HEADER_COUNT, [Itoa(|ids|)]), Entry(MSG_ID_HEADER, [msgId(ids)])]
  }

  lemma WireHeadersGet(msgId: seq<string> -> string, ids: seq<string>)
    ensures Get(WireHeaders(msgId, ids), HEADER_VERSION) == VERSION
    ensures Get(WireHeaders(msgId, ids), HEADER_COUNT) == Itoa(|ids|)
  {
    var headers := WireHeaders(msgId, ids);
    assert headers[0].key != HEADER_COUNT by { assert |HEADER_VERSION| != |HEADER_COUNT|; }
    assert Get(headers[1..], HEADER_COUNT) == Itoa(|ids|);
  }

  /** Round trip: a frame built from elements of its subject unpacks to exactly these elements, in order,
      with index headers from 0; a payload with any byte behind it, any other array count or any other count
      header is refused. */
  lemma FrameRoundTrip(codec: Codec, msgId: seq<string> -> string, ids: seq<string>, subject: string,
                       elements: seq<Element>, encoded: seq<seq<Byte>>)
    requires SelfDelimiting(codec) && EncodedAs(codec, elements, encoded) && 0 < |elements| < WIDE && |ids| == |elements|
    requires forall k :: 0 <= k < |elements| ==> elements[k].subject == subject
    ensures Unpack(codec, Message(subject, WireHeaders(msgId, ids), Joined(encoded))) ==
      Elements(seq(|elements|, i requires 0 <= i < |elements| => ElementMessage(elements[i], i)))
    ensures forall extra: seq<Byte> :: extra != [] ==>
      Unpack(codec, Message(subject, WireHeaders(msgId, ids), Joined(encoded) + extra)) == BadFrame
    ensures forall others: seq<string> :: |others| != |elements| ==>
      Unpack(codec, Message(subject, WireHeaders(msgId, others), Joined(encoded))) == BadFrame
    ensures forall m: nat :: m < WIDE && m != |elements| ==>
      Unpack(codec, Message(subject, WireHeaders(msgId, ids), Header(ARRAY, m) + Concat(encoded))) == BadFrame
  {
    hide DecodeFrame, SelfDelimiting, EncodedAs, WireHeaders, Get, Set, Itoa;
    JoinedDecodes(codec, elements, encoded, []);
    assert Joined(encoded) + [] == Joined(encoded);
    WireHeadersGet(msgId, ids);
    forall extra: seq<Byte> | extra != []
      ensures Unpack(codec, Message(subject, WireHeaders(msgId, ids), Joined(encoded) + extra)) == BadFrame
    {
      JoinedDecodes(codec, elements, encoded, extra);
    }
    forall others: seq<string> | |others| != |elements|
      ensures Unpack(codec, Message(subject, WireHeaders(msgId, others), Joined(encoded))) == BadFrame
    {
      WireHeadersGet(msgId, others);
      if Itoa(|others|) == Itoa(|elements|) {
        ItoaInjective(|others|, |elements|);
      }
    }
    forall m: nat | m < WIDE && m != |elements|
      ensures Unpack(codec, Message(subject, WireHeaders(msgId, ids), Header(ARRAY, m) + Concat(encoded))) == BadFrame
    {
      WrongCountRefused(codec, elements, encoded, m);
    }
  }

  /** Entry k is the first one of the header. */
  ghost predicate FirstOf(headers: seq<Entry>, key: string, k: nat) {
    k < |headers| && headers[k].key == key && forall j :: 0 <= j < k ==> headers[j].key != key
  }

  lemma {:induction false} GetFirst(headers: seq<Entry>, key: string)
    ensures forall k: nat :: FirstOf(headers, key, k) ==>
      Get(headers, key) == if headers[k].values == [] then "" else headers[k].values[0]
    ensures (forall k :: 0 <= k < |headers| ==> headers[k].key != key) ==> Get(headers, key) == ""
  {
    if headers != [] {
      GetFirst(headers[1..], key);
      forall k: nat | FirstOf(headers, key, k) && k > 0 ensures FirstOf(headers[1..], key, k - 1) {
        assert forall j :: 0 <= j < k - 1 ==> headers[1..][j] == headers[j + 1];
      }
    }
  }

  /** Setting a header replaces its value and no other one. */
  lemma {:induction false} SetThenGet(headers: seq<Entry>, key: string, value: string, other: string)
    ensures Get(Set(headers, key, value), key) == value
    ensures other != key ==> Get(Set(headers, key, value), other) == Get(headers, other)
  {
    if headers != [] && headers[0].key != key {
      SetThenGet(headers[1..], key, value, other);
    }
  }

  /** The version header decides: without one a message comes back as itself, with an unknown one it is refused. */
  lemma VersionDecides(codec: Codec, msg: Message, k: nat)
    ensures (forall j :: 0 <= j < |msg.headers| ==> msg.headers[j].key != HEADER_VERSION) ==> Unpack(codec, msg) == Single(msg)
    ensures FirstOf(msg.headers, HEADER_VERSION, k) ==>
      var values, r := msg.headers[k].values, Unpack(codec, msg);
      && (r == Single(msg) <==> values == [] || values[0] == "")
      && (r == UnknownVersion <==> values != [] && values[0] != "" && values[0] != VERSION)
      && (r.BadFrame? || r.Elements? <==> values != [] && values[0] == VERSION)
  {
    hide DecodeFrame, Itoa, Get;
    GetFirst(msg.headers, HEADER_VERSION);
  }

  /** What is unpacked: the elements of the payload, all of the subject of the frame, each with its index and otherwise
      its own headers. A frame with an element of another subject is refused. */
  lemma UnpackedAreTheElements(codec: Codec, msg: Message, i: nat, other: string)
    requires IsFrame(msg) && DecodeFrame(codec, msg.data).Some?
    requires i < |DecodeFrame(codec, msg.data).value|
    ensures var e, r := DecodeFrame(codec, msg.data).value[i], Unpack(codec, msg);
      && (e.subject != msg.subject ==> !r.Elements? && !r.Single?)
      && (r.Elements? ==>
            && |r.msgs| == |DecodeFrame(codec, msg.data).value|
            && r.msgs[i].subject == e.subject == msg.subject && r.msgs[i].data == e.payload
            && Get(r.msgs[i].headers, HEADER_INDEX) == Itoa(i)
            && (other != HEADER_INDEX ==> Get(r.msgs[i].headers, other) == Get(e.headers, other)))
  {
    hide DecodeFrame, Itoa, Get, Set;
    SetThenGet(DecodeFrame(codec, msg.data).value[i].headers, HEADER_INDEX, Itoa(i), other);
  }
}
