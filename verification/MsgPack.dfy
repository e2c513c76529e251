/** The part of MessagePack that frames use: length headers, strings, byte strings and the element map. */
module MsgPack {
  import opened BatchTypes

  type Byte = x: int | 0 <= x < 256

  const WIDE: nat := 0x1_0000_0000

  /** How one type writes a length: fixed codes from low, then optional 8, 16 and 32 bit forms. */
  datatype Family = Family(low: Byte, fixed: nat, code8: Option<Byte>, code16: Byte, code32: Byte)

  const ARRAY := Family(0x90, 16, None, 0xDC, 0xDD)
  const STR := Family(0xA0, 32, Some(0xD9), 0xDA, 0xDB)
  const BIN := Family(0, 0, Some(0xC4), 0xC5, 0xC6)
  const MAP := Family(0x80, 16, None, 0xDE, 0xDF)
  const NIL: Byte := 0xC0

  predicate ValidFamily(f: Family) {
    && f.low + f.fixed <= 256
    && !(f.low <= f.code16 < f.low + f.fixed) && !(f.low <= f.code32 < f.low + f.fixed) && f.code16 != f.code32
    && (f.code8.Some? ==>
          && !(f.low <= f.code8.value < f.low + f.fixed) && f.code8.value != f.code16 && f.code8.value != f.code32)
  }

  /** Bytes of a length, most significant first; a longer length loses its high bits. */
  function Byte16(n: nat): seq<Byte> {
    [n / 256 % 256, n % 256]
  }

  function Byte32(n: nat): seq<Byte> {
    [n / 0x100_0000 % 256, n / 0x1_0000 % 256, n / 256 % 256, n % 256]
  }

  function Value32(b: seq<Byte>): nat
    requires |b| == 4
  {
    b[0] as int * 0x100_0000 + b[1] as int * 0x1_0000 + b[2] as int * 256 + b[3] as int
  }

  function Header(f: Family, n: nat): seq<Byte>
    requires ValidFamily(f)
  {
    if n < f.fixed then [f.low + n]
    else if f.code8.Some? && n < 256 then [f.code8.value, n]
    else if n < 0x1_0000 then [f.code16] + Byte16(n)
    else [f.code32] + Byte32(n)
  }

  /** The length at the start of data and the data behind it. */
  function ReadHeader(f: Family, data: seq<Byte>): Option<(nat, seq<Byte>)> {
    if data == [] then None
    else if f.low <= data[0] < f.low + f.fixed then Some((data[0] - f.low, data[1..]))
    else if f.code8 == Some(data[0]) then
      if |data| < 2 then None else Some((data[1], data[2..]))
    else if data[0] == f.code16 then
      if |data| < 3 then None else Some((data[1] as int * 256 + data[2] as int, data[3..]))
    else if data[0] == f.code32 then
      if |data| < 5 then None
      else Some((Value32(data[1..5]), data[5..]))
    else None
  }

  lemma Byte32Value(n: nat)
    ensures Value32(Byte32(n)) == n % WIDE
  {
    assert n / 256 / 256 == n / 0x1_0000 && n / 256 / 256 / 256 == n / 0x100_0000;
  }

  /** A length header reads back as the length modulo 2^32, whatever follows it. */
  lemma HeaderReads(f: Family, n: nat, rest: seq<Byte>)
    requires ValidFamily(f)
    ensures ReadHeader(f, Header(f, n) + rest) == Some((if n < f.fixed then n else n % WIDE, rest))
  {
    var data := Header(f, n) + rest;
    assert data[|Header(f, n)|..] == rest;
    if n >= 0x1_0000 && n >= f.fixed {
      Byte32Value(n);
      assert data[1..5] == Byte32(n);
    } else if n >= f.fixed && !(f.code8.Some? && n < 256) {
      assert data[1] == Byte16(n)[0] && data[2] == Byte16(n)[1];
    }
  }

  /** The array length as the decoder reads it: nil is -1. */
  function ReadArrayLen(data: seq<Byte>): Option<(int, seq<Byte>)> {
    if data != [] && data[0] == NIL then Some((-1, data[1..]))
    else
      var read := ReadHeader(ARRAY, data);
      if read.Some? then Some((read.value.0, read.value.1)) else None
  }

  /** The array header is right for a length if and only if the length is below 2^32. */
  lemma ArrayHeaderReads(n: nat, rest: seq<Byte>)
    ensures ReadArrayLen(Header(ARRAY, n) + rest) == Some((n, rest)) <==> n < WIDE
    ensures ReadArrayLen(Header(ARRAY, n) + rest) == Some((n % WIDE, rest))
    ensures |Header(ARRAY, n)| <= 5
  {
    ArrayHeaderStarts(n);
    hide Header, ReadHeader;
    HeaderReads(ARRAY, n, rest);
    assert (Header(ARRAY, n) + rest)[0] == Header(ARRAY, n)[0];
  }

  lemma ArrayHeaderStarts(n: nat)
    ensures 1 <= |Header(ARRAY, n)| <= 5 && Header(ARRAY, n)[0] != NIL
  {
  }

  /** Strings are byte strings: each char stands for one byte. */
  predicate Bytes(s: string) {
    |s| < WIDE && forall k :: 0 <= k < |s| ==> s[k] as int < 256
  }

  function ToBytes(s: string): (b: seq<Byte>)
    requires Bytes(s)
    ensures |b| == |s|
  {
    seq(|s|, k requires 0 <= k < |s| => s[k] as int as Byte)
  }

  function FromBytes(b: seq<Byte>): string {
    seq(|b|, k requires 0 <= k < |b| => (b[k] as int) as char)
  }

  function WriteString(s: string): seq<Byte>
    requires Bytes(s)
  {
    Header(STR, |s|) + ToBytes(s)
  }

  function Take(n: nat, data: seq<Byte>): Option<(seq<Byte>, seq<Byte>)> {
    if n <= |data| then Some((data[..n], data[n..])) else None
  }

  function ReadString(data: seq<Byte>): Option<(string, seq<Byte>)> {
    var header := ReadHeader(STR, data);
    if header.None? then None
    else
      var body := Take(header.value.0, header.value.1);
      if body.None? then None else Some((FromBytes(body.value.0), body.value.1))
  }

  lemma StringReads(s: string, rest: seq<Byte>)
    requires Bytes(s)
    ensures ReadString(WriteString(s) + rest) == Some((s, rest))
  {
    hide Header, ReadHeader;
    var body := ToBytes(s) + rest;
    assert WriteString(s) + rest == Header(STR, |s|) + body;
    HeaderReads(STR, |s|, body);
    assert body[..|s|] == ToBytes(s) && body[|s|..] == rest;
    assert FromBytes(ToBytes(s)) == s;
  }

  function WriteBin(b: seq<Byte>): seq<Byte> {
    Header(BIN, |b|) + b
  }

  function ReadBin(data: seq<Byte>): Option<(seq<Byte>, seq<Byte>)> {
    var header := ReadHeader(BIN, data);
    if header.None? then None else Take(header.value.0, header.value.1)
  }

  lemma BinReads(b: seq<Byte>, rest: seq<Byte>)
    requires |b| < WIDE
    ensures ReadBin(WriteBin(b) + rest) == Some((b, rest))
  {
    hide Header, ReadHeader;
    var body := b + rest;
    assert WriteBin(b) + rest == Header(BIN, |b|) + body;
    HeaderReads(BIN, |b|, body);
    assert body[..|b|] == b && body[|b|..] == rest;
  }

  /** A header and its values. The entries of a map come in the order in which they are written. */
  datatype Entry = Entry(key: string, values: seq<string>)

  predicate AllBytes(values: seq<string>) {
    forall k :: 0 <= k < |values| ==> Bytes(values[k])
  }

  function WriteStrings(values: seq<string>): seq<Byte>
    requires AllBytes(values)
  {
    if values == [] then [] else WriteString(values[0]) + WriteStrings(values[1..])
  }

  function ReadStrings(n: nat, data: seq<Byte>): Option<(seq<string>, seq<Byte>)> {
    if n == 0 then Some(([], data))
    else
      var first := ReadString(data);
      if first.None? then None
      else
        var more := ReadStrings(n - 1, first.value.1);
        if more.None? then None else Some(([first.value.0] + more.value.0, more.value.1))
  }

  lemma {:induction false} StringsRead(values: seq<string>, rest: seq<Byte>)
    requires AllBytes(values)
    ensures ReadStrings(|values|, WriteStrings(values) + rest) == Some((values, rest))
  {
    if values == [] {
      assert WriteStrings(values) + rest == rest;
    } else {
      hide ReadString, WriteString;
      var behind := WriteStrings(values[1..]) + rest;
      assert WriteStrings(values) + rest == WriteString(values[0]) + behind;
      StringReads(values[0], behind);
      StringsRead(values[1..], rest);
      assert [values[0]] + values[1..] == values;
    }
  }

  predicate Writable(entry: Entry) {
    Bytes(entry.key) && |entry.values| < WIDE && AllBytes(entry.values)
  }

  function WriteEntry(entry: Entry): seq<Byte>
    requires Writable(entry)
  {
    WriteString(entry.key) + (Header(ARRAY, |entry.values|) + WriteStrings(entry.values))
  }

  function ReadEntry(data: seq<Byte>): Option<(Entry, seq<Byte>)> {
    var key := ReadString(data);
    if key.None? then None
    else
      var header := ReadHeader(ARRAY, key.value.1);
      if header.None? then None
      else
        var values := ReadStrings(header.value.0, header.value.1);
        if values.None? then None else Some((Entry(key.value.0, values.value.0), values.value.1))
  }

  lemma EntryReads(entry: Entry, rest: seq<Byte>)
    requires Writable(entry)
    ensures ReadEntry(WriteEntry(entry) + rest) == Some((entry, rest))
  {
    hide ReadString, WriteString, ReadHeader, Header, ReadStrings, WriteStrings;
    var values := WriteStrings(entry.values) + rest;
    var behind := Header(ARRAY, |entry.values|) + values;
    assert WriteEntry(entry) + rest == WriteString(entry.key) + behind;
    StringReads(entry.key, behind);
    HeaderReads(ARRAY, |entry.values|, values);
    StringsRead(entry.values, rest);
  }

  predicate AllWritable(entries: seq<Entry>) {
    forall k :: 0 <= k < |entries| ==> Writable(entries[k])
  }

  function WriteEntries(entries: seq<Entry>): seq<Byte>
    requires AllWritable(entries)
  {
    if entries == [] then [] else WriteEntry(entries[0]) + WriteEntries(entries[1..])
  }

  function ReadEntries(n: nat, data: seq<Byte>): Option<(seq<Entry>, seq<Byte>)> {
    if n == 0 then Some(([], data))
    else
      var first := ReadEntry(data);
      if first.None? then None
      else
        var more := ReadEntries(n - 1, first.value.1);
        if more.None? then None else Some(([first.value.0] + more.value.0, more.value.1))
  }

  lemma {:induction false} EntriesRead(entries: seq<Entry>, rest: seq<Byte>)
    requires AllWritable(entries)
    ensures ReadEntries(|entries|, WriteEntries(entries) + rest) == Some((entries, rest))
  {
    if entries == [] {
      assert WriteEntries(entries) + rest == rest;
    } else {
      assert entries == [entries[0]] + entries[1..];
      var e, es := entries[0], entries[1..];
      assert WriteEntries(entries) == WriteEntry(e) + WriteEntries(es);
      hide ReadEntry, WriteEntry, WriteEntries, ReadEntries, AllWritable;
      var behind := WriteEntries(es) + rest;
      AppendAssociates(WriteEntry(e), WriteEntries(es), rest);
      EntryReads(e, behind);
      EntriesRead(es, rest);
      ReadOneMore(WriteEntry(e) + behind, e, behind, es, rest);
    }
  }

  lemma ReadOneMore(data: seq<Byte>, e: Entry, behind: seq<Byte>, es: seq<Entry>, rest: seq<Byte>)
    requires ReadEntry(data) == Some((e, behind)) && ReadEntries(|es|, behind) == Some((es, rest))
    ensures ReadEntries(|es| + 1, data) == Some(([e] + es, rest))
  {
    hide ReadEntry;
  }

  /** One message inside a frame. */
  datatype Element = Element(subject: string, headers: seq<Entry>, payload: seq<Byte>)

  predicate Encodable(e: Element) {
    Bytes(e.subject) && |e.headers| < WIDE && AllWritable(e.headers) && |e.payload| < WIDE
  }

  const SUBJECT := "subject"
  const HEADERS := "headers"
  const PAYLOAD := "payload"

  function WriteElement(e: Element): seq<Byte>
    requires Encodable(e)
  {
    Header(MAP, 3)
    + (WriteString(SUBJECT) + (WriteString(e.subject)
    + (WriteString(HEADERS) + (Header(MAP, |e.headers|) + (WriteEntries(e.headers)
    + (WriteString(PAYLOAD) + WriteBin(e.payload)))))))
  }

  /** The field name and the data behind it. */
  function ReadField(name: string, data: seq<Byte>): Option<seq<Byte>> {
    var field := ReadString(data);
    if field.None? || field.value.0 != name then None else Some(field.value.1)
  }

  function ReadHeaders(data: seq<Byte>): Option<(seq<Entry>, seq<Byte>)> {
    var header := ReadHeader(MAP, data);
    if header.None? then None else ReadEntries(header.value.0, header.value.1)
  }

  /** Reads an element in the shape WriteElement gives it. */
  function ReadElement(data: seq<Byte>): Option<(Element, seq<Byte>)> {
    var header := ReadHeader(MAP, data);
    if header.None? || header.value.0 != 3 then None
    else
      var subjectField := ReadField(SUBJECT, header.value.1);
      if subjectField.None? then None
      else
        var subject := ReadString(subjectField.value);
        if subject.None? then None
        else
          var headersField := ReadField(HEADERS, subject.value.1);
          if headersField.None? then None
          else
            var headers := ReadHeaders(headersField.value);
            if headers.None? then None
            else
              var payloadField := ReadField(PAYLOAD, headers.value.1);
              if payloadField.None? then None
              else
                var payload := ReadBin(payloadField.value);
                if payload.None? then None
                else Some((Element(subject.value.0, headers.value.0, payload.value.0), payload.value.1))
  }

  lemma HeadersRead(entries: seq<Entry>, rest: seq<Byte>)
    requires |entries| < WIDE && AllWritable(entries)
    ensures ReadHeaders(Header(MAP, |entries|) + (WriteEntries(entries) + rest)) == Some((entries, rest))
  {
    hide ReadHeader, Header, ReadEntries, WriteEntries;
    HeaderReads(MAP, |entries|, WriteEntries(entries) + rest);
    EntriesRead(entries, rest);
  }

  lemma FieldReads(name: string, rest: seq<Byte>)
    requires Bytes(name)
    ensures ReadField(name, WriteString(name) + rest) == Some(rest)
  {
    hide ReadString, WriteString;
    StringReads(name, rest);
  }

  /** A written element reads back, whatever follows it. */
  lemma ElementReads(e: Element, rest: seq<Byte>)
    requires Encodable(e)
    ensures ReadElement(WriteElement(e) + rest) == Some((e, rest))
  {
    hide ReadString, WriteString, ReadHeader, Header, ReadEntries, WriteEntries, ReadBin, WriteBin, ReadField, ReadHeaders;
    var payload := WriteBin(e.payload) + rest;
    var payloadField := WriteString(PAYLOAD) + payload;
    var entries := WriteEntries(e.headers) + payloadField;
    var headers := Header(MAP, |e.headers|) + entries;
    var headersField := WriteString(HEADERS) + headers;
    var subject := WriteString(e.subject) + headersField;
    var subjectField := WriteString(SUBJECT) + subject;
    assert WriteElement(e) + rest == Header(MAP, 3) + subjectField;
    HeaderReads(MAP, 3, subjectField);
    FieldReads(SUBJECT, subject);
    StringReads(e.subject, headersField);
    FieldReads(HEADERS, headers);
    HeadersRead(e.headers, payloadField);
    FieldReads(PAYLOAD, payload);
    BinReads(e.payload, rest);
  }

  /** The bytes of the MessagePack specification, section "Formats": a length that is short enough lies in the first byte,
      a longer one follows its code, most significant byte first. */
  lemma HeaderBytes(n: nat)
    ensures n <= 15 ==> Header(ARRAY, n) == [0x90 + n] && Header(MAP, n) == [0x80 + n]
    ensures 15 < n <= 0xFFFF ==> Header(ARRAY, n) == [0xDC, n / 256, n % 256] && Header(MAP, n) == [0xDE, n / 256, n % 256]
    ensures n <= 31 ==> Header(STR, n) == [0xA0 + n]
    ensures 31 < n <= 0xFF ==> Header(STR, n) == [0xD9, n]
    ensures n <= 0xFF ==> Header(BIN, n) == [0xC4, n]
    ensures 0xFF < n <= 0xFFFF ==> Header(STR, n) == [0xDA, n / 256, n % 256] && Header(BIN, n) == [0xC5, n / 256, n % 256]
    ensures 0xFFFF < n < WIDE ==>
      var wide := [n / 0x100_0000, n / 0x1_0000 % 256, n / 256 % 256, n % 256];
      && Header(ARRAY, n) == [0xDD] + wide && Header(MAP, n) == [0xDF] + wide
      && Header(STR, n) == [0xDB] + wide && Header(BIN, n) == [0xC6] + wide
  {
  }

  /** The families of codes do not meet: what one of them writes no other one reads, and none of them writes nil. */
  lemma FamiliesApart(f: Family, g: Family, n: nat, rest: seq<Byte>)
    requires f in {ARRAY, STR, BIN, MAP} && g in {ARRAY, STR, BIN, MAP} && f != g
    ensures ReadHeader(g, Header(f, n) + rest) == None && Header(f, n)[0] != NIL
  {
    HeaderNotEmpty(f, n);
    assert (Header(f, n) + rest)[0] == Header(f, n)[0];
  }

  lemma HeaderNotEmpty(f: Family, n: nat)
    requires ValidFamily(f)
    ensures Header(f, n) != []
  {
  }

  lemma ShortString(s: string)
    requires Bytes(s) && |s| <= 31
    ensures WriteString(s) == [0xA0 + |s|] + ToBytes(s)
  {
    HeaderBytes(|s|);
  }

  /** An element is a map of its three fields: its subject as a string, its headers as a map of arrays of strings, and its
      payload as a byte string. */
  lemma ElementBytes()
    ensures WriteElement(Element("a", [Entry("b", ["c", "d"])], [7, 8])) ==
      [0x83]
      + ([0xA7, 0x73, 0x75, 0x62, 0x6A, 0x65, 0x63, 0x74] + ([0xA1, 0x61]
      + ([0xA7, 0x68, 0x65, 0x61, 0x64, 0x65, 0x72, 0x73] + ([0x81] + (([0xA1, 0x62] + ([0x92] + ([0xA1, 0x63] + [0xA1, 0x64])))
      + ([0xA7, 0x70, 0x61, 0x79, 0x6C, 0x6F, 0x61, 0x64] + ([0xC4, 0x02] + [7, 8])))))))
  {
    hide WriteString, Header;
    assert WriteString(SUBJECT) == [0xA7, 0x73, 0x75, 0x62, 0x6A, 0x65, 0x63, 0x74] by { ShortString(SUBJECT); }
    assert WriteString(HEADERS) == [0xA7, 0x68, 0x65, 0x61, 0x64, 0x65, 0x72, 0x73] by { ShortString(HEADERS); }
    assert WriteString(PAYLOAD) == [0xA7, 0x70, 0x61, 0x79, 0x6C, 0x6F, 0x61, 0x64] by { ShortString(PAYLOAD); }
    assert WriteString("a") == [0xA1, 0x61] by { ShortString("a"); }
    var entry := Entry("b", ["c", "d"]);
    assert WriteEntries([entry]) == [0xA1, 0x62] + ([0x92] + ([0xA1, 0x63] + [0xA1, 0x64])) by { EntryBytes(entry); }
    HeaderBytes(1);
    HeaderBytes(2);
    HeaderBytes(3);
  }

  lemma EntryBytes(entry: Entry)
    requires entry == Entry("b", ["c", "d"])
    ensures WriteEntries([entry]) == [0xA1, 0x62] + ([0x92] + ([0xA1, 0x63] + [0xA1, 0x64]))
  {
    hide WriteString, Header;
    assert WriteString("b") == [0xA1, 0x62] by { ShortString("b"); }
    assert WriteString("c") == [0xA1, 0x63] by { ShortString("c"); }
    assert WriteString("d") == [0xA1, 0x64] by { ShortString("d"); }
    HeaderBytes(2);
    assert ["c", "d"][1..] == ["d"] && ["d"][1..] == [];
    assert WriteStrings(["d"]) == WriteString("d") + WriteStrings([]) == [0xA1, 0x64];
    assert WriteStrings(["c", "d"]) == [0xA1, 0x63] + [0xA1, 0x64];
    assert [entry][1..] == [];
    assert WriteEntries([entry]) == WriteEntry(entry) + WriteEntries([]) == WriteEntry(entry);
  }
}
