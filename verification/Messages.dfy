/** The SSDP message codec: the line parser, the four builders, and the cursor that cuts a
  * message off at the end of its buffer. Text is a string of Unicode characters, measured
  * in UTF-8 bytes where the source measures bytes.
  */
module Messages {
  import opened Machine
  import opened Targets

  datatype Message =
    | NotifyAlive(notificationType: string, uniqueServiceName: string, location: string)
    | NotifyByeBye(notificationType: string, uniqueServiceName: string)
    | Search(searchTarget: string, maximumWaitSec: nat)
    | Response(searchTarget: string, uniqueServiceName: string, location: string)

  datatype Error = InvalidData | UnexpectedEof

  // ---- text ----

  const CRLF := "\r\n"

  function StripCr(s: string): string {
    if s != "" && s[|s| - 1] == '\r' then s[..|s| - 1] else s
  }

  /** `str::lines` */
  function Lines(s: string): seq<string>
    decreases |s|
  {
    if s == "" then [] else
    match Find(s, '\n')
    case None => [s]
    case Some(i) => [StripCr(s[..i])] + Lines(s[i + 1..])
  }

  /** The Unicode White_Space property, which `str::trim` strips. */
  predicate White(c: char) {
    || '\t' <= c <= '\r' || c == ' ' || c == '\U{85}' || c == '\U{A0}' || c == '\U{1680}'
    || '\U{2000}' <= c <= '\U{200A}' || c == '\U{2028}' || c == '\U{2029}' || c == '\U{202F}'
    || c == '\U{205F}' || c == '\U{3000}'
  }

  function TrimStart(s: string): string {
    if s != "" && White(s[0]) then TrimStart(s[1..]) else s
  }

  function TrimEnd(s: string): string {
    if s != "" && White(s[|s| - 1]) then TrimEnd(s[..|s| - 1]) else s
  }

  function Trim(s: string): string {
    TrimEnd(TrimStart(s))
  }

  function UpperChar(c: char): char {
    if 'a' <= c <= 'z' then (c as int - 32) as char else c
  }

  function Upper(s: string): string {
    seq(|s|, i requires 0 <= i < |s| => UpperChar(s[i]))
  }

  // ---- parsing ----

  /** One header line's effect on the map: the text before the first colon, in upper case,
    * takes the trimmed text after it; the last line for a key wins.
    */
  function Insert(m: map<string, string>, line: string): map<string, string> {
    match Find(line, ':')
    case None => m
    case Some(i) => m[Upper(line[..i]) := Trim(line[i + 1..])]
  }

  function Headers(lines: seq<string>): map<string, string> {
    if lines == [] then map[] else Insert(Headers(lines[..|lines| - 1]), lines[|lines| - 1])
  }

  function Interpret(prefix: string, m: map<string, string>): Result<Message, Error> {
    if prefix == "NOTIFY * HTTP/1.1" then
      if "NTS" in m && m["NTS"] == "ssdp:alive" && "NT" in m && "USN" in m && "LOCATION" in m then
        Ok(NotifyAlive(m["NT"], m["USN"], m["LOCATION"]))
      else if "NTS" in m && m["NTS"] == "ssdp:byebye" && "NT" in m && "USN" in m then
        Ok(NotifyByeBye(m["NT"], m["USN"]))
      else Err(InvalidData)
    else if prefix == "HTTP/1.1 200 OK" then
      if "ST" in m && "USN" in m && "LOCATION" in m then
        Ok(Response(m["ST"], m["USN"], m["LOCATION"]))
      else Err(InvalidData)
    else if prefix == "M-SEARCH * HTTP/1.1" then
      if "ST" in m && "MX" in m && ParseUnsigned(m["MX"], 256).Some? then
        Ok(Search(m["ST"], ParseUnsigned(m["MX"], 256).value))
      else Err(InvalidData)
    else Err(InvalidData)
  }

  /** A packet is its text, or None if its bytes are not UTF-8. */
  function Parsed(packet: Option<string>): Result<Message, Error> {
    match packet
    case None => Err(InvalidData)
    case Some(text) =>
      var lines := Lines(text);
      if lines == [] then Err(UnexpectedEof) else Interpret(lines[0], Headers(lines[1..]))
  }

  method Parse(packet: Option<string>) returns (r: Result<Message, Error>)
    ensures r == Parsed(packet)
  {
    if packet.None? {
      return Err(InvalidData);
    }
    var lines := Lines(packet.value);
    if lines == [] {
      return Err(UnexpectedEof);
    }
    var prefix := lines[0];
    var m: map<string, string> := map[];
    for i := 1 to |lines|
      invariant m == Headers(lines[1..i])
    {
      var line := lines[i];
      var colon := Find(line, ':');
      if colon.Some? {
        m := m[Upper(line[..colon.value]) := Trim(line[colon.value + 1..])];
      }
      assert lines[1..i + 1][..i - 1] == lines[1..i];
    }
    assert lines[1..|lines|] == lines[1..];
    match prefix {
      case "NOTIFY * HTTP/1.1" =>
        if "NTS" in m {
          if m["NTS"] == "ssdp:alive" {
            if "NT" in m && "USN" in m && "LOCATION" in m {
              return Ok(NotifyAlive(m["NT"], m["USN"], m["LOCATION"]));
            }
          } else if m["NTS"] == "ssdp:byebye" {
            if "NT" in m && "USN" in m {
              return Ok(NotifyByeBye(m["NT"], m["USN"]));
            }
          }
        }
      case "HTTP/1.1 200 OK" =>
        if "ST" in m && "USN" in m && "LOCATION" in m {
          return Ok(Response(m["ST"], m["USN"], m["LOCATION"]));
        }
      case "M-SEARCH * HTTP/1.1" =>
        if "ST" in m && "MX" in m {
          var mx := ParseUnsigned(m["MX"], 256);
          if mx.Some? {
            return Ok(Search(m["ST"], mx.value));
          }
        }
      case _ =>
    }
    return Err(InvalidData);
  }

  // ---- the cursor ----

  function Utf8Len(c: char): nat {
    var n := c as int;
    if n < 0x80 then 1 else if n < 0x800 then 2 else if n < 0x1_0000 then 3 else 4
  }

  function ByteLen(s: string): nat {
    if s == "" then 0 else ByteLen(s[..|s| - 1]) + Utf8Len(s[|s| - 1])
  }

  /** The bytes of one character: a lead byte and so many continuation bytes of six bits each
    * (RFC 3629 section 3).
    */
  ghost function Utf8(c: char): (b: seq<u8>)
    ensures |b| > 0
  {
    var n := c as int;
    if n < 0x80 then [n]
    else if n < 0x800 then [0xC0 + n / 0x40] + SixBits(n, 1)
    else if n < 0x1_0000 then [0xE0 + n / 0x40 / 0x40] + SixBits(n, 2)
    else [0xF0 + n / 0x40 / 0x40 / 0x40] + SixBits(n, 3)
  }

  ghost function SixBits(n: nat, k: nat): (b: seq<u8>)
    ensures |b| == k
  {
    if k == 0 then [] else SixBits(n / 0x40, k - 1) + [0x80 + n % 0x40]
  }

  /** The bits of the lead byte, and then those of the rest. */
  ghost function Bits(lead: nat, rest: seq<u8>): int {
    if rest == [] then lead else Bits(lead, rest[..|rest| - 1]) * 0x40 + rest[|rest| - 1] - 0x80
  }

  lemma {:induction false} SixBitsRead(lead: nat, n: nat, k: nat)
    ensures Bits(lead, SixBits(n, k)) == if k == 0 then lead else Bits(lead, SixBits(n / 0x40, k - 1)) * 0x40 + n % 0x40
  {
    if k > 0 {
      assert SixBits(n, k)[..k - 1] == SixBits(n / 0x40, k - 1);
    }
  }

  /** `Utf8Len` counts the bytes of an encoding that can be read back: the lead byte says how
    * many there are, and the bits together are the character.
    */
  lemma Utf8Reads(c: char)
    ensures var b := Utf8(c);
      && |b| == Utf8Len(c)
      && |b| == (if b[0] < 0x80 then 1 else if b[0] < 0xE0 then 2 else if b[0] < 0xF0 then 3 else 4)
      && c as int == Bits(b[0] - (if |b| == 1 then 0 else if |b| == 2 then 0xC0 else if |b| == 3 then 0xE0 else 0xF0), b[1..])
  {
    var n := c as int;
    if n >= 0x80 {
      var k: nat := if n < 0x800 then 1 else if n < 0x1_0000 then 2 else 3;
      var lead := if k == 1 then n / 0x40 else if k == 2 then n / 0x40 / 0x40 else n / 0x40 / 0x40 / 0x40;
      SixBitsRead(lead, n, k);
      SixBitsRead(lead, n / 0x40, k - 1);
      if k > 1 {
        SixBitsRead(lead, n / 0x40 / 0x40, k - 2);
      }
      if k > 2 {
        SixBitsRead(lead, n / 0x40 / 0x40 / 0x40, 0);
      }
      assert Utf8(c)[1..] == SixBits(n, k);
    }
  }

  lemma {:induction false} ByteLenConcat(a: string, b: string)
    ensures ByteLen(a + b) == ByteLen(a) + ByteLen(b)
  {
    if b == "" {
      assert a + b == a;
    } else {
      assert (a + b)[..|a + b| - 1] == a + b[..|b| - 1];
      ByteLenConcat(a, b[..|b| - 1]);
    }
  }

  ghost function Concat(pieces: seq<string>): string {
    if pieces == [] then "" else pieces[0] + Concat(pieces[1..])
  }

  /** What `write!` leaves of its pieces in a buffer with `room` bytes left: it stops at the
    * first piece that does not fit, which is not written at all.
    */
  ghost function Written(room: nat, pieces: seq<string>): string
    decreases |pieces|
  {
    if pieces == [] || ByteLen(pieces[0]) > room then ""
    else pieces[0] + Written(room - ByteLen(pieces[0]), pieces[1..])
  }

  /** A message that fits is written whole. */
  lemma {:induction false} WrittenWhole(room: nat, pieces: seq<string>)
    requires ByteLen(Concat(pieces)) <= room
    ensures Written(room, pieces) == Concat(pieces)
    decreases |pieces|
  {
    if pieces != [] {
      ByteLenConcat(pieces[0], Concat(pieces[1..]));
      WrittenWhole(room - ByteLen(pieces[0]), pieces[1..]);
    }
  }

  lemma WrittenStep(text: string, room: nat, pieces: seq<string>, i: nat)
    requires i < |pieces| && ByteLen(pieces[i]) <= room
    ensures text + Written(room, pieces[i..])
         == text + pieces[i] + Written(room - ByteLen(pieces[i]), pieces[i + 1..])
  {
    assert pieces[i..][1..] == pieces[i + 1..];
  }

  /** What is written starts as the first piece does, if that fits. */
  lemma WrittenStarts(room: nat, pieces: seq<string>)
    requires pieces != [] && ByteLen(pieces[0]) <= room && pieces[0] != ""
    ensures Written(room, pieces) != "" && Written(room, pieces)[0] == pieces[0][0]
  {
  }

  /** And what does not fit: everything up to the first piece that would go past the end. */
  lemma {:induction false} WrittenCut(room: nat, pieces: seq<string>) returns (k: nat)
    ensures k <= |pieces| && Written(room, pieces) == Concat(pieces[..k]) && ByteLen(Concat(pieces[..k])) <= room
    ensures k < |pieces| ==> ByteLen(Concat(pieces[..k + 1])) > room
    decreases |pieces|
  {
    if pieces == [] {
      k := 0;
    } else if ByteLen(pieces[0]) > room {
      k := 0;
      assert pieces[..1] == [pieces[0]] && pieces[..1][1..] == [];
      assert pieces[0] + "" == pieces[0];
    } else {
      hide ByteLen;
      var j := WrittenCut(room - ByteLen(pieces[0]), pieces[1..]);
      k := j + 1;
      FirstPiece(pieces, j);
      if k < |pieces| {
        FirstPiece(pieces, k);
      }
    }
  }

  lemma FirstPiece(pieces: seq<string>, j: nat)
    requires j < |pieces|
    ensures Concat(pieces[..j + 1]) == pieces[0] + Concat(pieces[1..][..j])
    ensures ByteLen(Concat(pieces[..j + 1])) == ByteLen(pieces[0]) + ByteLen(Concat(pieces[1..][..j]))
  {
    assert pieces[..j + 1][1..] == pieces[1..][..j];
    ByteLenConcat(pieces[0], Concat(pieces[1..][..j]));
  }

  class MessageCursor {
    const capacity: nat
    /** The text in the first `offset` bytes of the buffer. */
    var text: string
    var offset: nat

    ghost predicate Valid()
      reads this
    {
      offset == ByteLen(text) <= capacity
    }

    constructor (capacity: nat)
      ensures Valid() && text == "" && this.capacity == capacity
    {
      this.capacity, text, offset := capacity, "", 0;
    }

    method WriteStr(s: string) returns (ok: bool)
      requires Valid()
      modifies this
      ensures Valid()
      ensures ok <==> old(offset) + ByteLen(s) <= capacity
      ensures text == if ok then old(text) + s else old(text)
      ensures offset == if ok then old(offset) + ByteLen(s) else old(offset)
    {
      var n := ByteLen(s);
      if n + offset > capacity {
        return false;
      }
      ByteLenConcat(text, s);
      text := text + s;
      offset := offset + n;
      return true;
    }

    /** `write!` with these pieces. */
    method Write(pieces: seq<string>)
      requires Valid()
      modifies this
      ensures Valid()
      ensures text == old(text) + Written(capacity - old(offset), pieces)
    {
      ghost var all := Written(capacity - offset, pieces);
      for i := 0 to |pieces|
        invariant Valid()
        invariant old(text) + all == text + Written(capacity - offset, pieces[i..])
      {
        ghost var room, was := capacity - offset, text;
        assert pieces[i..][1..] == pieces[i + 1..];
        var ok := WriteStr(pieces[i]);
        if !ok {
          assert text + "" == text;
          return;
        }
        WrittenStep(was, room, pieces, i);
      }
    }
  }

  // ---- the builders ----

  function Key(key: string): string {
    key + ": "
  }

  function Line(key: string, value: string): string {
    Key(key) + value
  }

  function Heads(headers: seq<(string, string)>): string {
    if headers == [] then "" else Line(headers[0].0, headers[0].1) + CRLF + Heads(headers[1..])
  }

  /** A start line and headers, each ended by CRLF, and the empty line that ends a message. */
  function Text(prefix: string, headers: seq<(string, string)>): string {
    prefix + CRLF + Heads(headers) + CRLF
  }

  /** A header whose value is an argument of the builder, after some whose values are fixed. */
  datatype Field = Field(fixed: seq<(string, string)>, key: string, value: string)

  /** The pieces `write!` is given: literal text up to each argument, the arguments between. */
  function Pieces(opening: string, fields: seq<Field>, tail: seq<(string, string)>): seq<string>
    decreases |fields|
  {
    if fields == [] then [opening + Heads(tail) + CRLF]
    else
      [opening + Heads(fields[0].fixed) + Key(fields[0].key), fields[0].value]
      + Pieces(CRLF, fields[1..], tail)
  }

  function AllHeaders(fields: seq<Field>, tail: seq<(string, string)>): seq<(string, string)> {
    if fields == [] then tail
    else fields[0].fixed + [(fields[0].key, fields[0].value)] + AllHeaders(fields[1..], tail)
  }

  const HOST := ("HOST", "239.255.255.250:1900")
  const MAX_AGE := ("CACHE-CONTROL", "max-age=1800")
  const SERVER := ("SERVER", "none/0 UPnP/1.0 cotton-ssdp/0.0.5")
  const MAN := ("MAN", "\"ssdp:discover\"")
  const MX := ("MX", "5")
  const ALIVE := ("NTS", "ssdp:alive")
  const BYEBYE := ("NTS", "ssdp:byebye")
  const SEARCH := "M-SEARCH * HTTP/1.1"
  const RESPONSE := "HTTP/1.1 200 OK"
  const NOTIFY := "NOTIFY * HTTP/1.1"

  function SearchFields(searchType: string): seq<Field> {
    [Field([HOST, MAN, MX], "ST", searchType)]
  }

  function ResponseFields(searchTarget: string, uniqueServiceName: string, location: string): seq<Field> {
    [Field([MAX_AGE], "ST", searchTarget), Field([], "USN", uniqueServiceName),
     Field([], "LOCATION", location)]
  }

  function NotifyFields(notificationType: string, uniqueServiceName: string, location: string): seq<Field> {
    [Field([HOST, MAX_AGE], "LOCATION", location), Field([], "NT", notificationType),
     Field([ALIVE], "USN", uniqueServiceName)]
  }

  function ByeByeFields(notificationType: string, uniqueServiceName: string): seq<Field> {
    [Field([HOST, MAX_AGE], "NT", notificationType), Field([BYEBYE], "USN", uniqueServiceName)]
  }

  function SearchPieces(searchType: string): seq<string> {
    Pieces(SEARCH + CRLF, SearchFields(searchType), [])
  }

  function ResponsePieces(searchTarget: string, uniqueServiceName: string, location: string): seq<string> {
    Pieces(RESPONSE + CRLF, ResponseFields(searchTarget, uniqueServiceName, location), [SERVER])
  }

  function NotifyPieces(notificationType: string, uniqueServiceName: string, location: string): seq<string> {
    Pieces(NOTIFY + CRLF, NotifyFields(notificationType, uniqueServiceName, location), [SERVER])
  }

  function ByeByePieces(notificationType: string, uniqueServiceName: string): seq<string> {
    Pieces(NOTIFY + CRLF, ByeByeFields(notificationType, uniqueServiceName), [SERVER])
  }

  /** Writes the pieces into a buffer of that many bytes and returns what is there. */
  method Build(capacity: nat, pieces: seq<string>) returns (text: string)
    ensures text == Written(capacity, pieces)
  {
    var cursor := new MessageCursor(capacity);
    cursor.Write(pieces);
    return cursor.text;
  }

  // ---- what parsing a built message finds ----

  /** A field that survives the trip: no newline in it, and no white space round it. */
  ghost predicate Clean(field: string) {
    '\n' !in field && Trim(field) == field
  }

  predicate IsKey(key: string) {
    ':' !in key && '\n' !in key && Upper(key) == key
  }

  lemma LinesFirst(line: string, rest: string)
    requires '\n' !in line
    ensures Lines(line + CRLF + rest) == [line] + Lines(rest)
  {
    var s := line + CRLF + rest;
    var i := |line| + 1;
    assert s[i] == '\n' && s[..i] == line + "\r";
    FindIs(s, '\n', i);
    assert s[i + 1..] == rest;
  }

  /** Trimming takes the space after the colon off again. */
  lemma TrimSpace(field: string)
    requires Trim(field) == field
    ensures Trim(" " + field) == field
  {
    assert (" " + field)[1..] == field;
  }

  lemma InsertHeader(m: map<string, string>, key: string, value: string)
    requires IsKey(key) && Trim(value) == value
    ensures Insert(m, Line(key, value)) == m[key := value]
  {
    var line := Line(key, value);
    assert line[..|key|] == key && line[|key| + 1..] == " " + value;
    FindIs(line, ':', |key|);
    TrimSpace(value);
  }

  ghost predicate Sound(headers: seq<(string, string)>) {
    forall i :: 0 <= i < |headers| ==> IsKey(headers[i].0) && Clean(headers[i].1)
  }

  ghost function LinesOf(headers: seq<(string, string)>): seq<string> {
    if headers == [] then [""] else [Line(headers[0].0, headers[0].1)] + LinesOf(headers[1..])
  }

  ghost function MapOf(headers: seq<(string, string)>): map<string, string> {
    if headers == [] then map[]
    else MapOf(headers[..|headers| - 1])[headers[|headers| - 1].0 := headers[|headers| - 1].1]
  }

  lemma {:induction false} HeadsLines(headers: seq<(string, string)>)
    requires Sound(headers)
    ensures Lines(Heads(headers) + CRLF) == LinesOf(headers)
  {
    if headers == [] {
      LinesFirst("", "");
      assert "" + CRLF + "" == Heads(headers) + CRLF;
    } else {
      var (key, value) := headers[0];
      var line := Line(key, value);
      assert '\n' !in line;
      hide Line, Lines, IsKey, Clean;
      LinesFirst(line, Heads(headers[1..]) + CRLF);
      Assoc(line + CRLF, Heads(headers[1..]), CRLF);
      HeadsLines(headers[1..]);
    }
  }

  /** The lines of a list of headers, without the empty one that ends them. */
  ghost function OnlyLines(headers: seq<(string, string)>): seq<string> {
    seq(|headers|, i requires 0 <= i < |headers| => Line(headers[i].0, headers[i].1))
  }

  lemma {:induction false} LinesOfIs(headers: seq<(string, string)>)
    ensures LinesOf(headers) == OnlyLines(headers) + [""]
  {
    hide Line;
    if headers != [] {
      LinesOfIs(headers[1..]);
      assert OnlyLines(headers) == [Line(headers[0].0, headers[0].1)] + OnlyLines(headers[1..]);
    }
  }

  lemma {:induction false} HeadersOnly(headers: seq<(string, string)>)
    requires Sound(headers)
    ensures Headers(OnlyLines(headers)) == MapOf(headers)
  {
    if headers != [] {
      var init := headers[..|headers| - 1];
      var (key, value) := headers[|headers| - 1];
      HeadersOnly(init);
      assert OnlyLines(headers)[..|headers| - 1] == OnlyLines(init);
      InsertHeader(MapOf(init), key, value);
    }
  }

  /** The lines of a message are its start line, its headers and an empty one. */
  lemma TextLines(prefix: string, headers: seq<(string, string)>)
    requires '\n' !in prefix && Sound(headers)
    ensures Lines(Text(prefix, headers)) == [prefix] + (OnlyLines(headers) + [""])
  {
    hide Lines, LinesOf, OnlyLines, Sound;
    var rest := Heads(headers) + CRLF;
    LinesFirst(prefix, rest);
    Assoc(prefix + CRLF, Heads(headers), CRLF);
    HeadsLines(headers);
    LinesOfIs(headers);
  }

  /** An empty line is no header. */
  lemma HeadersEmptyLine(lines: seq<string>)
    ensures Headers(lines + [""]) == Headers(lines)
  {
    assert (lines + [""])[..|lines|] == lines;
    assert Find("", ':') == None;
  }

  /** Whatever sound headers are written under a start line, parsing sees that start line and
    * exactly those headers.
    */
  lemma TextParses(prefix: string, headers: seq<(string, string)>)
    requires '\n' !in prefix && Sound(headers)
    ensures Parsed(Some(Text(prefix, headers))) == Interpret(prefix, MapOf(headers))
  {
    hide Lines, OnlyLines, Sound, Text, MapOf, Interpret, Headers;
    TextLines(prefix, headers);
    HeadersOnly(headers);
    var lines := OnlyLines(headers);
    assert ([prefix] + (lines + [""]))[1..] == lines + [""];
    HeadersEmptyLine(lines);
  }

  lemma {:induction false} ByteLenBound(s: string)
    ensures ByteLen(s) <= 4 * |s|
  {
    if s != "" {
      ByteLenBound(s[..|s| - 1]);
    }
  }

  lemma HeadsLength(headers: seq<(string, string)>)
    requires headers != []
    ensures |Heads(headers)| == |headers[0].0| + |headers[0].1| + 4 + |Heads(headers[1..])|
  {
  }

  /** In a packet of any useful size, an announcement and a response begin differently. */
  lemma StartsDiffer(room: nat, nt: string, usn: string, location: string,
                     st: string, usn': string, location': string)
    requires room >= 400
    ensures Written(room, NotifyPieces(nt, usn, location)) != Written(room, ResponsePieces(st, usn', location'))
  {
    var notify, response := NotifyPieces(nt, usn, location), ResponsePieces(st, usn', location');
    HeadsLength([HOST, MAX_AGE]);
    assert [HOST, MAX_AGE][1..] == [MAX_AGE] && [MAX_AGE][1..] == [];
    HeadsLength([MAX_AGE]);
    hide Heads, Written, ByteLen;
    assert notify[0] == NOTIFY + CRLF + Heads([HOST, MAX_AGE]) + Key("LOCATION");
    assert response[0] == RESPONSE + CRLF + Heads([MAX_AGE]) + Key("ST");
    ByteLenBound(notify[0]);
    ByteLenBound(response[0]);
    WrittenStarts(room, notify);
    WrittenStarts(room, response);
  }

  // ---- header names in any case ----

  /** Two characters are the same, or the same letter in upper and lower case. */
  predicate SameLetter(a: char, b: char) {
    || a == b
    || ('A' <= a <= 'Z' && b as int == a as int + 32)
    || ('A' <= b <= 'Z' && a as int == b as int + 32)
  }

  ghost predicate SameButForCase(a: string, b: string) {
    |a| == |b| && forall i :: 0 <= i < |a| ==> SameLetter(a[i], b[i])
  }

  lemma UpperIgnoresCase(a: string, b: string)
    requires SameButForCase(a, b)
    ensures Upper(a) == Upper(b)
  {
    assert forall i :: 0 <= i < |a| ==> UpperChar(a[i]) == UpperChar(b[i]);
  }

  /** Header lines as anybody may write them: a name with no colon, and no newlines. */
  ghost predicate Writable(headers: seq<(string, string)>) {
    forall i :: 0 <= i < |headers| ==> ':' !in headers[i].0 && '\n' !in headers[i].0 && '\n' !in headers[i].1
  }

  ghost predicate SameHeaders(a: seq<(string, string)>, b: seq<(string, string)>) {
    |a| == |b| && forall i :: 0 <= i < |a| ==> SameButForCase(a[i].0, b[i].0) && a[i].1 == b[i].1
  }

  lemma InsertIs(m: map<string, string>, key: string, value: string)
    requires ':' !in key
    ensures Insert(m, Line(key, value)) == m[Upper(key) := Trim(" " + value)]
  {
    var line := Line(key, value);
    assert line[..|key|] == key && line[|key| + 1..] == " " + value;
    FindIs(line, ':', |key|);
    hide Trim, Upper;
  }

  lemma {:induction false} HeadersIgnoreCase(a: seq<(string, string)>, b: seq<(string, string)>)
    requires Writable(a) && Writable(b) && SameHeaders(a, b)
    ensures Headers(OnlyLines(a)) == Headers(OnlyLines(b))
  {
    if a != [] {
      var n := |a| - 1;
      hide Line, Insert, Upper, SameButForCase;
      HeadersIgnoreCase(a[..n], b[..n]);
      assert OnlyLines(a)[..n] == OnlyLines(a[..n]) && OnlyLines(b)[..n] == OnlyLines(b[..n]);
      var m := Headers(OnlyLines(a[..n]));
      InsertIs(m, a[n].0, a[n].1);
      InsertIs(m, b[n].0, b[n].1);
      UpperIgnoresCase(a[n].0, b[n].0);
    }
  }

  /** Header names are read without regard to case: two messages that differ only in that are
    * read alike.
    */
  lemma CaseIgnored(prefix: string, a: seq<(string, string)>, b: seq<(string, string)>)
    requires '\n' !in prefix && Writable(a) && Writable(b) && SameHeaders(a, b)
    ensures Parsed(Some(Text(prefix, a))) == Parsed(Some(Text(prefix, b)))
  {
    WritableParses(prefix, a);
    WritableParses(prefix, b);
    HeadersIgnoreCase(a, b);
  }

  lemma {:induction false} WritableLines(headers: seq<(string, string)>)
    requires Writable(headers)
    ensures Lines(Heads(headers) + CRLF) == LinesOf(headers)
  {
    if headers == [] {
      LinesFirst("", "");
      assert "" + CRLF + "" == Heads(headers) + CRLF;
    } else {
      var (key, value) := headers[0];
      var line := Line(key, value);
      assert '\n' !in line;
      hide Line, Lines;
      LinesFirst(line, Heads(headers[1..]) + CRLF);
      Assoc(line + CRLF, Heads(headers[1..]), CRLF);
      WritableLines(headers[1..]);
    }
  }

  lemma WritableParses(prefix: string, headers: seq<(string, string)>)
    requires '\n' !in prefix && Writable(headers)
    ensures Parsed(Some(Text(prefix, headers))) == Interpret(prefix, Headers(OnlyLines(headers)))
  {
    hide Lines, LinesOf, OnlyLines, Writable, Interpret, Headers;
    var rest := Heads(headers) + CRLF;
    LinesFirst(prefix, rest);
    Assoc(prefix + CRLF, Heads(headers), CRLF);
    WritableLines(headers);
    LinesOfIs(headers);
    var lines := OnlyLines(headers);
    assert ([prefix] + (lines + [""]))[1..] == lines + [""];
    HeadersEmptyLine(lines);
  }

  /** An ordinary response with its header names in lower case. */
  lemma LowerCaseResponse(searchTarget: string, uniqueServiceName: string, location: string)
    requires Clean(searchTarget) && Clean(uniqueServiceName) && Clean(location)
    ensures Parsed(Some(Text(RESPONSE, [("st", searchTarget), ("Usn", uniqueServiceName), ("location", location)])))
         == Ok(Response(searchTarget, uniqueServiceName, location))
  {
    var upper := [("ST", searchTarget), ("USN", uniqueServiceName), ("LOCATION", location)];
    var lower := [("st", searchTarget), ("Usn", uniqueServiceName), ("location", location)];
    ForeignResponse(searchTarget, uniqueServiceName, location);
    LowerKeys();
    hide Parsed, Text, SameButForCase, Trim;
    CaseIgnored(RESPONSE, lower, upper);
  }

  lemma LowerKeys()
    ensures SameButForCase("st", "ST") && SameButForCase("Usn", "USN") && SameButForCase("location", "LOCATION")
  {
  }

  lemma ForeignResponse(searchTarget: string, uniqueServiceName: string, location: string)
    requires Clean(searchTarget) && Clean(uniqueServiceName) && Clean(location)
    ensures Parsed(Some(Text(RESPONSE, [("ST", searchTarget), ("USN", uniqueServiceName), ("LOCATION", location)])))
         == Ok(Response(searchTarget, uniqueServiceName, location))
  {
    var upper := [("ST", searchTarget), ("USN", uniqueServiceName), ("LOCATION", location)];
    KeyPlain("ST");
    KeyPlain("USN");
    KeyPlain("LOCATION");
    hide Parsed, Text, MapOf, IsKey, Clean;
    TextParses(RESPONSE, upper);
    Lookup(upper, 0);
    Lookup(upper, 1);
    Lookup(upper, 2);
  }

  // ---- line endings, white space, and what is left out ----

  /** Lines, each ended by CRLF or by a newline alone. */
  ghost function Ended(lines: seq<string>, crlf: seq<bool>): string
    requires |lines| == |crlf|
  {
    if lines == [] then "" else lines[0] + (if crlf[0] then CRLF else "\n") + Ended(lines[1..], crlf[1..])
  }

  lemma LinesFirstLf(line: string, rest: string)
    requires '\n' !in line && (line != "" ==> line[|line| - 1] != '\r')
    ensures Lines(line + "\n" + rest) == [line] + Lines(rest)
  {
    var s := line + "\n" + rest;
    var i := |line|;
    assert s[i] == '\n' && s[..i] == line;
    FindIs(s, '\n', i);
    assert s[i + 1..] == rest;
  }

  /** However its lines are ended, and whether or not the last of them is, a text has the lines
    * it was made of.
    */
  lemma {:induction false} LinesAre(lines: seq<string>, crlf: seq<bool>, last: string)
    requires |lines| == |crlf| && '\n' !in last
    requires forall i :: 0 <= i < |lines| ==>
      '\n' !in lines[i] && (lines[i] != "" ==> lines[i][|lines[i]| - 1] != '\r')
    ensures Lines(Ended(lines, crlf) + last) == lines + if last == "" then [] else [last]
  {
    if lines == [] {
      assert Ended(lines, crlf) + last == last;
      NoNewline(last);
    } else {
      hide Lines;
      var more := Ended(lines[1..], crlf[1..]);
      LinesAre(lines[1..], crlf[1..], last);
      LinesMore(lines[0], crlf[0], more + last);
      Assoc(lines[0] + (if crlf[0] then CRLF else "\n"), more, last);
    }
  }

  lemma LinesMore(line: string, crlf: bool, more: string)
    requires '\n' !in line && (line != "" ==> line[|line| - 1] != '\r')
    ensures Lines(line + (if crlf then CRLF else "\n") + more) == [line] + Lines(more)
  {
    if crlf {
      LinesFirst(line, more);
    } else {
      LinesFirstLf(line, more);
    }
  }

  lemma NoNewline(s: string)
    requires '\n' !in s
    ensures Lines(s) == if s == "" then [] else [s]
  {
    assert Find(s, '\n') == None;
  }

  /** In ASCII, white space is tab to carriage return, and the space. */
  lemma AsciiWhite(c: char)
    requires c < '\U{80}'
    ensures White(c) <==> c == ' ' || c == '\t' || c == '\n' || c == '\r' || c == '\U{0B}' || c == '\U{0C}'
  {
  }

  lemma {:induction false} TrimStartStrips(pad: string, s: string)
    requires (forall i :: 0 <= i < |pad| ==> White(pad[i])) && (s != "" ==> !White(s[0]))
    ensures TrimStart(pad + s) == s
  {
    hide White;
    if pad == "" {
      assert pad + s == s;
    } else {
      assert (pad + s)[1..] == pad[1..] + s;
      TrimStartStrips(pad[1..], s);
    }
  }

  lemma {:induction false} TrimEndStrips(s: string, pad: string)
    requires (forall i :: 0 <= i < |pad| ==> White(pad[i])) && (s != "" ==> !White(s[|s| - 1]))
    ensures TrimEnd(s + pad) == s
  {
    hide White;
    if pad == "" {
      assert s + pad == s;
    } else {
      assert (s + pad)[..|s + pad| - 1] == s + pad[..|pad| - 1];
      TrimEndStrips(s, pad[..|pad| - 1]);
    }
  }

  /** White space round a value goes, and nothing else. */
  lemma TrimStrips(before: string, s: string, after: string)
    requires forall i :: 0 <= i < |before| ==> White(before[i])
    requires forall i :: 0 <= i < |after| ==> White(after[i])
    requires s != "" ==> !White(s[0]) && !White(s[|s| - 1])
    ensures Trim(before + s + after) == s
  {
    hide White;
    if s == "" {
      assert before + s + after == (before + after) + "";
      TrimStartStrips(before + after, "");
      assert TrimEnd("") == "";
    } else {
      Assoc(before, s, after);
      assert (s + after)[0] == s[0];
      TrimStartStrips(before, s + after);
      TrimEndStrips(s, after);
    }
  }

  /** Only an empty packet is reported as cut short; what is not text, and what is no message,
    * is bad data.
    */
  lemma ErrorsAre(packet: Option<string>)
    ensures Parsed(packet) == Err(UnexpectedEof) <==> packet == Some("")
    ensures packet.None? ==> Parsed(packet) == Err(InvalidData)
  {
    hide Headers, Interpret;
    if packet.Some? && packet.value != "" {
      assert Lines(packet.value) != [];
      InterpretMeans(Lines(packet.value)[0], Headers(Lines(packet.value)[1..]));
    }
  }

  /** Each kind of message, and just what it takes to be read as that. */
  lemma InterpretMeans(prefix: string, m: map<string, string>)
    ensures forall nt, usn, location :: Interpret(prefix, m) == Ok(NotifyAlive(nt, usn, location)) <==>
      && prefix == "NOTIFY * HTTP/1.1" && ("NTS", "ssdp:alive") in m.Items
      && ("NT", nt) in m.Items && ("USN", usn) in m.Items && ("LOCATION", location) in m.Items
    ensures forall nt, usn :: Interpret(prefix, m) == Ok(NotifyByeBye(nt, usn)) <==>
      && prefix == "NOTIFY * HTTP/1.1" && ("NTS", "ssdp:byebye") in m.Items
      && ("NT", nt) in m.Items && ("USN", usn) in m.Items
    ensures forall st, usn, location :: Interpret(prefix, m) == Ok(Response(st, usn, location)) <==>
      && prefix == "HTTP/1.1 200 OK"
      && ("ST", st) in m.Items && ("USN", usn) in m.Items && ("LOCATION", location) in m.Items
    ensures forall st, mx: nat :: Interpret(prefix, m) == Ok(Search(st, mx)) <==>
      && prefix == "M-SEARCH * HTTP/1.1"
      && ("ST", st) in m.Items && "MX" in m && ParseUnsigned(m["MX"], 256) == Some(mx)
    ensures Interpret(prefix, m).Err? ==> Interpret(prefix, m).error == InvalidData
  {
    hide ParseUnsigned;
  }

  // ---- the four round trips ----

  lemma {:induction false} HeadsConcat(a: seq<(string, string)>, b: seq<(string, string)>)
    ensures Heads(a + b) == Heads(a) + Heads(b)
  {
    if a == [] {
      assert a + b == b && Heads(a) + Heads(b) == Heads(b);
    } else {
      hide Line;
      HeadsConcat(a[1..], b);
      assert (a + b)[1..] == a[1..] + b && (a + b)[0] == a[0];
      Assoc(Line(a[0].0, a[0].1) + CRLF, Heads(a[1..]), Heads(b));
    }
  }

  lemma Assoc(a: string, b: string, c: string)
    ensures a + b + c == a + (b + c)
  {
  }

  lemma HeadsOne(key: string, value: string)
    ensures Heads([(key, value)]) == Key(key) + value + CRLF
  {
    var h := [(key, value)];
    assert h[1..] == [] && Heads(h) == Line(key, value) + CRLF + "";
  }

  /** The pieces, put together, are the opening and the headers in order. */
  lemma {:induction false} PiecesText(opening: string, fields: seq<Field>, tail: seq<(string, string)>)
    ensures Concat(Pieces(opening, fields, tail)) == opening + Heads(AllHeaders(fields, tail)) + CRLF
    decreases |fields|
  {
    if fields == [] {
      var p := opening + Heads(tail) + CRLF;
      assert [p][1..] == [] && Concat([p]) == p + "";
    } else {
      var f := fields[0];
      var more := Pieces(CRLF, fields[1..], tail);
      var rest := AllHeaders(fields[1..], tail);
      PiecesText(CRLF, fields[1..], tail);
      HeadsConcat(f.fixed + [(f.key, f.value)], rest);
      HeadsConcat(f.fixed, [(f.key, f.value)]);
      HeadsOne(f.key, f.value);
      var first := opening + Heads(f.fixed) + Key(f.key);
      ConcatTwo(first, f.value, more);
      Regroup(opening, Heads(f.fixed), Key(f.key), f.value, Heads(rest));
    }
  }

  lemma ConcatTwo(a: string, b: string, more: seq<string>)
    ensures Concat([a, b] + more) == a + (b + Concat(more))
  {
    var all := [a, b] + more;
    assert all[1..] == [b] + more && ([b] + more)[1..] == more;
  }

  lemma Regroup(a: string, b: string, c: string, d: string, e: string)
    ensures (a + b + c) + (d + (CRLF + e + CRLF)) == a + (b + (c + d + CRLF) + e) + CRLF
  {
  }

  /** Keys and fixed values that stand up to being parsed. */
  ghost predicate SoundFields(fields: seq<Field>) {
    forall i :: 0 <= i < |fields| ==>
      Sound(fields[i].fixed) && IsKey(fields[i].key) && Clean(fields[i].value)
  }

  lemma {:induction false} AllSound(fields: seq<Field>, tail: seq<(string, string)>)
    requires SoundFields(fields) && Sound(tail)
    ensures Sound(AllHeaders(fields, tail))
  {
    if fields != [] {
      AllSound(fields[1..], tail);
    }
  }

  /** Any message built from sound fields, if it fits, parses as its start line and headers. */
  lemma BuiltParses(capacity: nat, prefix: string, fields: seq<Field>, tail: seq<(string, string)>)
    requires '\n' !in prefix && SoundFields(fields) && Sound(tail)
    requires ByteLen(Concat(Pieces(prefix + CRLF, fields, tail))) <= capacity
    ensures Parsed(Some(Written(capacity, Pieces(prefix + CRLF, fields, tail))))
         == Interpret(prefix, MapOf(AllHeaders(fields, tail)))
  {
    WrittenWhole(capacity, Pieces(prefix + CRLF, fields, tail));
    PiecesText(prefix + CRLF, fields, tail);
    AllSound(fields, tail);
    TextParses(prefix, AllHeaders(fields, tail));
  }

  /** A text that neither starts nor ends in white space is its own trim. */
  lemma TrimFixed(s: string)
    requires s != "" ==> !White(s[0]) && !White(s[|s| - 1])
    ensures Trim(s) == s
  {
  }

  lemma FixedSound()
    ensures Sound([HOST, MAN, MX]) && Sound([MAX_AGE]) && Sound([HOST, MAX_AGE]) && Sound([ALIVE])
    ensures Sound([BYEBYE]) && Sound([SERVER])
    ensures IsKey("ST") && IsKey("USN") && IsKey("LOCATION") && IsKey("NT")
  {
    SoundOne(HOST.0, HOST.1);
    SoundOne(MAN.0, MAN.1);
    SoundOne(MX.0, MX.1);
    SoundOne(MAX_AGE.0, MAX_AGE.1);
    SoundOne(ALIVE.0, ALIVE.1);
    SoundOne(BYEBYE.0, BYEBYE.1);
    SoundOne(SERVER.0, SERVER.1);
    KeyPlain("ST");
    KeyPlain("USN");
    KeyPlain("LOCATION");
    KeyPlain("NT");
  }

  predicate PlainKeyChar(c: char) {
    c == '-' || 'A' <= c <= 'Z'
  }

  lemma KeyPlain(key: string)
    requires forall i :: 0 <= i < |key| ==> PlainKeyChar(key[i])
    ensures IsKey(key)
  {
    assert Upper(key) == key;
  }

  lemma SoundOne(key: string, value: string)
    requires forall i :: 0 <= i < |key| ==> PlainKeyChar(key[i])
    requires |value| > 0 && !White(value[0]) && !White(value[|value| - 1]) && '\n' !in value
    ensures IsKey(key) && Clean(value)
  {
    KeyPlain(key);
    TrimFixed(value);
  }

  /** The value of a key in a list of headers is that of its last header. */
  lemma {:induction false} Lookup(headers: seq<(string, string)>, i: nat)
    requires i < |headers|
    requires forall j :: i < j < |headers| ==> headers[j].0 != headers[i].0
    ensures headers[i].0 in MapOf(headers) && MapOf(headers)[headers[i].0] == headers[i].1
  {
    if i < |headers| - 1 {
      Lookup(headers[..|headers| - 1], i);
    }
  }

  lemma ThreeFields(a: Field, b: Field, c: Field, tail: seq<(string, string)>)
    ensures AllHeaders([a, b, c], tail)
         == a.fixed + [(a.key, a.value)] + (b.fixed + [(b.key, b.value)] + (c.fixed + [(c.key, c.value)] + tail))
  {
    TwoFields(b, c, tail);
    assert [a, b, c][1..] == [b, c];
  }

  lemma TwoFields(b: Field, c: Field, tail: seq<(string, string)>)
    ensures AllHeaders([b, c], tail)
         == b.fixed + [(b.key, b.value)] + (c.fixed + [(c.key, c.value)] + tail)
  {
    assert [b, c][1..] == [c] && [c][1..] == [];
    assert AllHeaders([c], tail) == c.fixed + [(c.key, c.value)] + tail;
  }

  /** The whole text of a search. */
  lemma SearchText(searchType: string)
    ensures Concat(SearchPieces(searchType)) == Text("M-SEARCH * HTTP/1.1",
      [("HOST", "239.255.255.250:1900"), ("MAN", "\"ssdp:discover\""), ("MX", "5"), ("ST", searchType)])
  {
    hide Heads, Concat, Pieces;
    PiecesText(SEARCH + CRLF, SearchFields(searchType), []);
    assert AllHeaders(SearchFields(searchType), []) == [HOST, MAN, MX, ("ST", searchType)];
  }

  /** The whole text of a response. */
  lemma ResponseText(searchTarget: string, uniqueServiceName: string, location: string)
    ensures Concat(ResponsePieces(searchTarget, uniqueServiceName, location)) == Text("HTTP/1.1 200 OK",
      [("CACHE-CONTROL", "max-age=1800"), ("ST", searchTarget), ("USN", uniqueServiceName), ("LOCATION", location),
       ("SERVER", "none/0 UPnP/1.0 cotton-ssdp/0.0.5")])
  {
    hide Heads, Concat, Pieces;
    var fields := ResponseFields(searchTarget, uniqueServiceName, location);
    PiecesText(RESPONSE + CRLF, fields, [SERVER]);
    ThreeFields(fields[0], fields[1], fields[2], [SERVER]);
    hide AllHeaders;
    assert AllHeaders(fields, [SERVER]) ==
      [MAX_AGE, ("ST", searchTarget), ("USN", uniqueServiceName), ("LOCATION", location), SERVER];
  }

  /** The whole text of an announcement. */
  lemma NotifyText(notificationType: string, uniqueServiceName: string, location: string)
    ensures Concat(NotifyPieces(notificationType, uniqueServiceName, location)) == Text("NOTIFY * HTTP/1.1",
      [("HOST", "239.255.255.250:1900"), ("CACHE-CONTROL", "max-age=1800"), ("LOCATION", location),
       ("NT", notificationType), ("NTS", "ssdp:alive"), ("USN", uniqueServiceName),
       ("SERVER", "none/0 UPnP/1.0 cotton-ssdp/0.0.5")])
  {
    hide Heads, Concat, Pieces;
    var fields := NotifyFields(notificationType, uniqueServiceName, location);
    PiecesText(NOTIFY + CRLF, fields, [SERVER]);
    ThreeFields(fields[0], fields[1], fields[2], [SERVER]);
    hide AllHeaders;
    assert AllHeaders(fields, [SERVER]) ==
      [HOST, MAX_AGE, ("LOCATION", location), ("NT", notificationType), ALIVE, ("USN", uniqueServiceName), SERVER];
  }

  /** The whole text of a farewell. */
  lemma ByeByeText(notificationType: string, uniqueServiceName: string)
    ensures Concat(ByeByePieces(notificationType, uniqueServiceName)) == Text("NOTIFY * HTTP/1.1",
      [("HOST", "239.255.255.250:1900"), ("CACHE-CONTROL", "max-age=1800"), ("NT", notificationType),
       ("NTS", "ssdp:byebye"), ("USN", uniqueServiceName), ("SERVER", "none/0 UPnP/1.0 cotton-ssdp/0.0.5")])
  {
    hide Heads, Concat, Pieces;
    var fields := ByeByeFields(notificationType, uniqueServiceName);
    PiecesText(NOTIFY + CRLF, fields, [SERVER]);
    TwoFields(fields[0], fields[1], [SERVER]);
    hide AllHeaders;
    assert AllHeaders(fields, [SERVER]) ==
      [HOST, MAX_AGE, ("NT", notificationType), BYEBYE, ("USN", uniqueServiceName), SERVER];
  }

  /** `parse` inverts `build_search`. */
  lemma SearchRoundTrip(capacity: nat, searchType: string)
    requires Clean(searchType)
    requires ByteLen(Concat(SearchPieces(searchType))) <= capacity
    ensures Parsed(Some(Written(capacity, SearchPieces(searchType)))) == Ok(Search(searchType, 5))
  {
    FixedSound();
    var fields := SearchFields(searchType);
    hide Parsed, Written, ByteLen, Concat, Pieces, MapOf, IsKey, Clean;
    BuiltParses(capacity, SEARCH, fields, []);
    var headers := [HOST, MAN, MX, ("ST", searchType)];
    assert AllHeaders(fields, []) == headers;
    Lookup(headers, 2);
    Lookup(headers, 3);
    assert ParseUnsigned("5", 256) == Some(5);
  }

  /** A search somebody else might send: any MX that is a number below 256 is read as it is. */
  lemma ForeignSearch(searchTarget: string, mx: string)
    requires Clean(searchTarget) && Clean(mx) && ParseUnsigned(mx, 256).Some?
    ensures Parsed(Some(Text(SEARCH, [("MX", mx), ("ST", searchTarget)])))
         == Ok(Search(searchTarget, ParseUnsigned(mx, 256).value))
  {
    var headers := [("MX", mx), ("ST", searchTarget)];
    KeyPlain("ST");
    KeyPlain("MX");
    hide Parsed, Text, MapOf, IsKey, Clean, ParseUnsigned;
    TextParses(SEARCH, headers);
    Lookup(headers, 0);
    Lookup(headers, 1);
  }

  /** `parse` inverts `build_response`. */
  lemma ResponseRoundTrip(capacity: nat, searchTarget: string, uniqueServiceName: string, location: string)
    requires Clean(searchTarget) && Clean(uniqueServiceName) && Clean(location)
    requires ByteLen(Concat(ResponsePieces(searchTarget, uniqueServiceName, location))) <= capacity
    ensures Parsed(Some(Written(capacity, ResponsePieces(searchTarget, uniqueServiceName, location))))
         == Ok(Response(searchTarget, uniqueServiceName, location))
  {
    FixedSound();
    var fields := ResponseFields(searchTarget, uniqueServiceName, location);
    hide Parsed, Written, ByteLen, Concat, Pieces, MapOf, IsKey, Clean;
    BuiltParses(capacity, RESPONSE, fields, [SERVER]);
    var headers :=
      [MAX_AGE, ("ST", searchTarget), ("USN", uniqueServiceName), ("LOCATION", location), SERVER];
    ThreeFields(fields[0], fields[1], fields[2], [SERVER]);
    assert AllHeaders(fields, [SERVER]) == headers;
    Lookup(headers, 1);
    Lookup(headers, 2);
    Lookup(headers, 3);
  }

  /** `parse` inverts `build_notify`. */
  lemma NotifyRoundTrip(capacity: nat, notificationType: string, uniqueServiceName: string, location: string)
    requires Clean(notificationType) && Clean(uniqueServiceName) && Clean(location)
    requires ByteLen(Concat(NotifyPieces(notificationType, uniqueServiceName, location))) <= capacity
    ensures Parsed(Some(Written(capacity, NotifyPieces(notificationType, uniqueServiceName, location))))
         == Ok(NotifyAlive(notificationType, uniqueServiceName, location))
  {
    FixedSound();
    var fields := NotifyFields(notificationType, uniqueServiceName, location);
    hide Parsed, Written, ByteLen, Concat, Pieces, MapOf, IsKey, Clean;
    BuiltParses(capacity, NOTIFY, fields, [SERVER]);
    var headers :=
      [HOST, MAX_AGE, ("LOCATION", location), ("NT", notificationType), ALIVE, ("USN", uniqueServiceName),
       SERVER];
    ThreeFields(fields[0], fields[1], fields[2], [SERVER]);
    assert AllHeaders(fields, [SERVER]) == headers;
    Lookup(headers, 2);
    Lookup(headers, 3);
    Lookup(headers, 4);
    Lookup(headers, 5);
  }

  /** `parse` inverts `build_byebye`. */
  lemma ByeByeRoundTrip(capacity: nat, notificationType: string, uniqueServiceName: string)
    requires Clean(notificationType) && Clean(uniqueServiceName)
    requires ByteLen(Concat(ByeByePieces(notificationType, uniqueServiceName))) <= capacity
    ensures Parsed(Some(Written(capacity, ByeByePieces(notificationType, uniqueServiceName))))
         == Ok(NotifyByeBye(notificationType, uniqueServiceName))
  {
    FixedSound();
    var fields := ByeByeFields(notificationType, uniqueServiceName);
    hide Parsed, Written, ByteLen, Concat, Pieces, MapOf, IsKey, Clean;
    BuiltParses(capacity, NOTIFY, fields, [SERVER]);
    var headers :=
      [HOST, MAX_AGE, ("NT", notificationType), BYEBYE, ("USN", uniqueServiceName), SERVER];
    TwoFields(fields[0], fields[1], [SERVER]);
    assert AllHeaders(fields, [SERVER]) == headers;
    Lookup(headers, 2);
    Lookup(headers, 3);
    Lookup(headers, 4);
  }
}
