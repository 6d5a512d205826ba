// The blob store the proxy keeps vaults and archives in, reduced to what the handlers observe:
// containers (vaults) by name, each holding blobs by name. The calls follow the semantics of
// jclouds' in-memory store: reading a missing container raises ContainerNotFoundException,
// removing from one does nothing.

module BlobStore {
  import opened Options
  import opened Http

  /** What a blob holds: an uploaded payload of a given length, or the JSON record of an
      archive's metadata. */
  datatype Content = Payload(length: int) | MetadataRecord(entries: seq<(string, string)>)

  datatype Blob = Blob(content: Content, lastModified: string)

  datatype Container = Container(creationDate: string, blobs: map<string, Blob>)

  type Store = map<string, Container>

  /** A JSON string literal as Gson writes it. */
  function Quote(s: string): string {
    "\"" + Escape(s) + "\""
  }

  /** A lower-case hexadecimal digit. */
  function HexDigit(d: nat): char
    requires d < 16
  {
    if d < 10 then ('0' as int + d) as char else ('a' as int + d - 10) as char
  }

  /** Gson's "\\u%04x" form of a character below U+10000. */
  function UnicodeEscape(c: char): (r: string)
    requires (c as int) < 0x10000
    ensures |r| == 6
  {
    var n := c as int;
    ['\\', 'u', HexDigit(n / 0x1000), HexDigit(n / 0x100 % 16), HexDigit(n / 0x10 % 16), HexDigit(n % 16)]
  }

  /** The characters Gson's default (HTML-safe) writer replaces in a string: the quote, the
      backslash, control characters, the HTML-sensitive < > & = ' and the two line separators. */
  predicate NeedsEscape(c: char) {
    c == '"' || c == '\\' || (c as int) < 0x20 || c == '<' || c == '>' || c == '&' || c == '=' || c == '\''
    || c == '\U{2028}' || c == '\U{2029}'
  }

  /** One character as Gson writes it inside a string literal. */
  function EscapeChar(c: char): (r: string)
    ensures NeedsEscape(c) <==> r != [c]
    ensures 1 <= |r| <= 6
  {
    if c == '"' || c == '\\' then ['\\', c]
    else if c == '\t' then "\\t"
    else if c == '\U{8}' then "\\b"
    else if c == '\n' then "\\n"
    else if c == '\r' then "\\r"
    else if c == '\U{C}' then "\\f"
    else if NeedsEscape(c) then UnicodeEscape(c)
    else [c]
  }

  function Escape(s: string): (r: string)
    ensures |r| >= |s|
    ensures (forall i :: 0 <= i < |s| ==> !NeedsEscape(s[i])) ==> r == s
  {
    if s == [] then ""
    else EscapeChar(s[0]) + Escape(s[1..])
  }

  /** The number of bytes of a character in UTF-8. */
  function Utf8Width(c: char): (n: nat)
    ensures 1 <= n <= 4
  {
    var v := c as int;
    if v < 0x80 then 1 else if v < 0x800 then 2 else if v < 0x10000 then 3 else 4
  }

  /** String.getBytes under UTF-8: the length of the encoded text. */
  function Utf8Length(s: string): (n: nat)
    ensures n >= |s|
  {
    if s == [] then 0 else Utf8Width(s[0]) + Utf8Length(s[1..])
  }

  function Members(entries: seq<(string, string)>): string {
    if entries == [] then ""
    else Quote(entries[0].0) + ":" + Quote(entries[0].1) + (if |entries| == 1 then "" else "," + Members(entries[1..]))
  }

  /** The text Gson serialises a string map to, in entry order. */
  function JsonObjectText(entries: seq<(string, string)>): string {
    "{" + Members(entries) + "}"
  }

  /** The size the store reports for a blob: a payload's length, or the byte length of the
      metadata record's JSON text (Util.putMetadataBlob stores `toJson(metadata).getBytes()`). */
  function Size(b: Blob): int {
    match b.content
    case Payload(n) => n
    case MetadataRecord(entries) => Utf8Length(JsonObjectText(entries))
  }

  /** '=' is written as its six-character escape. */
  lemma EscapedEquals()
    ensures Escape("a=b") == "a\\u003db"
  {
    assert EscapeChar('=') == "\\u003d";
    assert Escape("b") == "b";
    assert Escape("=b") == "\\u003db";
  }

  predicate IsAscii(s: string) {
    forall i :: 0 <= i < |s| ==> (s[i] as int) < 0x80
  }

  /** Gson writes an ASCII string as ASCII: every escape is made of ASCII characters. */
  lemma {:induction false} EscapeKeepsAscii(s: string)
    requires IsAscii(s)
    ensures IsAscii(Escape(s))
  {
    if s != [] {
      assert IsAscii(s[1..]);
      EscapeKeepsAscii(s[1..]);
      var e := EscapeChar(s[0]);
      assert IsAscii(e);
      assert Escape(s) == e + Escape(s[1..]);
    }
  }

  /** An ASCII text is one byte per character. */
  lemma {:induction false} AsciiLength(s: string)
    requires IsAscii(s)
    ensures Utf8Length(s) == |s|
  {
    if s != [] {
      assert IsAscii(s[1..]);
      AsciiLength(s[1..]);
    }
  }

  lemma AsciiConcat(a: string, b: string)
    requires IsAscii(a) && IsAscii(b)
    ensures IsAscii(a + b)
  {
  }

  /** For metadata written in ASCII, the size the store reports is the length of the JSON text. */
  lemma {:induction false} AsciiRecordSize(entries: seq<(string, string)>, date: string)
    requires forall i :: 0 <= i < |entries| ==> IsAscii(entries[i].0) && IsAscii(entries[i].1)
    ensures Size(Blob(MetadataRecord(entries), date)) == |JsonObjectText(entries)|
  {
    MembersAscii(entries);
    AsciiConcat("{", Members(entries));
    AsciiConcat("{" + Members(entries), "}");
    AsciiLength(JsonObjectText(entries));
  }

  lemma {:induction false} MembersAscii(entries: seq<(string, string)>)
    requires forall i :: 0 <= i < |entries| ==> IsAscii(entries[i].0) && IsAscii(entries[i].1)
    ensures IsAscii(Members(entries))
  {
    if entries != [] {
      var (k, v) := entries[0];
      EscapeKeepsAscii(k);
      EscapeKeepsAscii(v);
      AsciiConcat("\"", Escape(k));
      AsciiConcat("\"" + Escape(k), "\"");
      AsciiConcat("\"", Escape(v));
      AsciiConcat("\"" + Escape(v), "\"");
      AsciiConcat(Quote(k), ":");
      AsciiConcat(Quote(k) + ":", Quote(v));
      if |entries| > 1 {
        MembersAscii(entries[1..]);
        AsciiConcat(",", Members(entries[1..]));
        AsciiConcat(Quote(k) + ":" + Quote(v), "," + Members(entries[1..]));
      } else {
        assert Quote(k) + ":" + Quote(v) + "" == Quote(k) + ":" + Quote(v);
      }
    }
  }

  /** A description holding '=' is stored with it written as a six-character escape. */
  lemma EscapedRecordSize()
    ensures Size(Blob(MetadataRecord([("d", "a=b")]), "")) == 16
  {
    EscapedEquals();
    assert Escape("d") == "d";
    AsciiRecordSize([("d", "a=b")], "");
  }

  /** The encoded length of a concatenation is the sum of the encoded lengths. */
  lemma {:induction false} Utf8LengthConcat(a: string, b: string)
    ensures Utf8Length(a + b) == Utf8Length(a) + Utf8Length(b)
  {
    if a != [] {
      assert (a + b)[1..] == a[1..] + b;
      Utf8LengthConcat(a[1..], b);
    } else {
      assert a + b == b;
    }
  }

  /** The text of a record of one entry: its two quoted strings, a colon and the braces. */
  lemma OneEntryText(key: string, value: string)
    ensures JsonObjectText([(key, value)]) == "{" + Quote(key) + ":" + Quote(value) + "}"
  {
    var entries := [(key, value)];
    assert Members(entries) == Quote(key) + ":" + Quote(value) + "";
    assert Quote(key) + ":" + Quote(value) + "" == Quote(key) + ":" + Quote(value);
  }

  /** A record of one entry is its two quoted strings, a colon and the braces. */
  lemma SingleEntrySize(key: string, value: string, date: string)
    ensures Size(Blob(MetadataRecord([(key, value)]), date)) == 3 + Utf8Length(Quote(key)) + Utf8Length(Quote(value))
  {
    var q1, q2 := Quote(key), Quote(value);
    var a := "{" + q1;
    var b := a + ":";
    var c := b + q2;
    OneEntryText(key, value);
    Utf8LengthConcat("{", q1);
    Utf8LengthConcat(a, ":");
    Utf8LengthConcat(b, q2);
    Utf8LengthConcat(c, "}");
  }

  /** A non-ASCII character is not escaped, but counts by its encoded bytes. */
  lemma EncodedRecordSize()
    ensures Size(Blob(MetadataRecord([("d", "\U{e9}")]), "")) == 10
  {
    SingleEntrySize("d", "\U{e9}", "");
    assert Quote("d") == "\"d\"";
    assert Escape("\U{e9}") == "\U{e9}";
    Utf8LengthConcat("\"", "\U{e9}");
    Utf8LengthConcat("\"\U{e9}", "\"");
  }

  /** blobExists. */
  function BlobExists(s: Store, container: string, name: string): (r: Try<bool>)
    ensures r.Fail? <==> container !in s
    ensures r.Ok? ==> (r.value <==> name in s[container].blobs)
  {
    if container !in s then Fail(ContainerNotFound) else Ok(name in s[container].blobs)
  }

  /** blobMetadata: None where the blob is missing (the store answers null). */
  function BlobMetadata(s: Store, container: string, name: string): (r: Try<Option<Blob>>)
    ensures r.Fail? <==> container !in s
    ensures r.Ok? ==> (r.value.Some? <==> name in s[container].blobs)
    ensures r.Ok? && r.value.Some? ==> r.value.value == s[container].blobs[name]
  {
    if container !in s then Fail(ContainerNotFound)
    else if name in s[container].blobs then Ok(Some(s[container].blobs[name]))
    else Ok(None)
  }

  /** putBlob on a container that exists stores the blob under its name, replacing any blob of
      that name; on a missing container it raises. */
  function PutBlob(s: Store, container: string, name: string, b: Blob): (r: Try<Store>)
    ensures r.Fail? <==> container !in s
    ensures r.Ok? ==> r.value.Keys == s.Keys
    ensures r.Ok? ==> r.value[container].blobs == s[container].blobs[name := b]
    ensures r.Ok? ==> r.value[container].creationDate == s[container].creationDate
    ensures r.Ok? ==> forall c :: c in s && c != container ==> r.value[c] == s[c]
  {
    if container !in s then Fail(ContainerNotFound)
    else Ok(s[container := s[container].(blobs := s[container].blobs[name := b])])
  }

  /** removeBlob: a missing container or a missing blob leaves the store as it was. */
  function RemoveBlob(s: Store, container: string, name: string): (r: Store)
    ensures r.Keys == s.Keys
    ensures container in s ==> r[container].blobs == s[container].blobs - {name}
    ensures container in s ==> r[container].creationDate == s[container].creationDate
    ensures forall c :: c in s && c != container ==> r[c] == s[c]
  {
    if container !in s then s
    else s[container := s[container].(blobs := s[container].blobs - {name})]
  }

  /** createContainerInLocation: creates an empty container unless one of that name exists. */
  function CreateContainer(s: Store, container: string, now: string): (r: Store)
    ensures r.Keys == s.Keys + {container}
    ensures container in s ==> r == s
    ensures container !in s ==> r[container] == Container(now, map[])
    ensures forall c :: c in s ==> r[c] == s[c]
  {
    if container in s then s else s[container := Container(now, map[])]
  }

  /** deleteContainerIfEmpty: false, and no change, for a container that holds blobs;
      otherwise true, with the container gone. */
  function DeleteContainerIfEmpty(s: Store, container: string): (r: (bool, Store))
    ensures r.0 <==> container !in s || s[container].blobs == map[]
    ensures r.0 ==> r.1 == s - {container}
    ensures !r.0 ==> r.1 == s
  {
    if container in s && s[container].blobs != map[] then (false, s) else (true, s - {container})
  }
}
