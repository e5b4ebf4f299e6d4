/** `PostmanRequest`: one recorded interaction as a Postman request record. */
module PostmanRequest {
  import opened Wrappers
  import opened Inputs
  import PostmanFolder

  /** The host every URL is built on; the configuration is not consulted. */
  const Host: string := "localhost:3000"

  /** The collection id written into every request, unrelated to the envelope's own id. */
  const FixedCollectionId: string := "e9f48259-989b-1876-f0b0-925ac0e31bcd"

  /** The text written for every header in place of its value. */
  const ValueText: string := "val"

  datatype Request = Request(
    id: string,
    headers: string,
    url: string,
    pathVariables: Table,
    preRequestScript: string,
    httpMethod: Option<string>,
    collectionId: string,
    data: seq<string>,
    dataMode: string,
    name: Option<string>,
    description: Option<string>,
    descriptionFormat: string,
    time: int,
    version: int,
    responses: seq<string>,
    tests: string,
    currentHelper: string,
    helperAttributes: Table,
    folder: string,
    rawModeData: Option<string>)

  /** The fields every request record carries whatever it was built from. */
  predicate HasFixedFields(r: Request) {
    && r.pathVariables == []
    && r.preRequestScript == ""
    && r.collectionId == FixedCollectionId
    && r.data == []
    && r.dataMode == "raw"
    && r.descriptionFormat == "html"
    && r.version == 2
    && r.responses == []
    && r.tests == ""
    && r.currentHelper == "normal"
    && r.helperAttributes == []
  }

  /** The combined length of all parts. */
  function TotalLength(parts: seq<string>): nat {
    if parts == [] then 0 else |parts[0]| + TotalLength(parts[1..])
  }

  /** Ruby's `Array#join(sep)` on strings. */
  function Join(parts: seq<string>, sep: char): string
  {
    if |parts| == 0 then ""
    else if |parts| == 1 then parts[0]
    else parts[0] + [sep] + Join(parts[1..], sep)
  }

  /**
   * `join` keeps every part once, in order, with one separator between neighbours and
   * none at either end.
   */
  lemma {:induction false} JoinParts(parts: seq<string>, sep: char)
    requires |parts| >= 1
    ensures |Join(parts, sep)| == TotalLength(parts) + |parts| - 1
    ensures Join(parts, sep)[..|parts[0]|] == parts[0]
    ensures |parts| >= 2 ==> Join(parts, sep)[|parts[0]|] == sep
    ensures |parts| >= 2 ==> Join(parts, sep)[|parts[0]| + 1..] == Join(parts[1..], sep)
  {
    if |parts| >= 2 {
      JoinParts(parts[1..], sep);
      assert parts[1..][1..] == parts[2..];
    }
  }

  /** Cutting a string at every `sep`; the inverse of `Join` on separator-free parts. */
  function Split(s: string, sep: char): (parts: seq<string>)
    ensures |parts| >= 1
  {
    if s == [] then [""]
    else
      var rest := Split(s[1..], sep);
      if s[0] == sep then [""] + rest else [[s[0]] + rest[0]] + rest[1..]
  }

  lemma {:induction false} SplitNoSep(a: string, sep: char)
    requires sep !in a
    ensures Split(a, sep) == [a]
  {
    if a != [] {
      SplitNoSep(a[1..], sep);
      assert [a[0]] + a[1..] == a;
    }
  }

  lemma {:induction false} SplitAtFirstSep(a: string, b: string, sep: char)
    requires sep !in a
    ensures Split(a + [sep] + b, sep) == [a] + Split(b, sep)
  {
    var s := a + [sep] + b;
    if a == [] {
      assert s[1..] == b;
    } else {
      assert s[1..] == a[1..] + [sep] + b;
      SplitAtFirstSep(a[1..], b, sep);
      assert [a[0]] + a[1..] == a;
    }
  }

  /** Joining non-empty lists of separator-free parts loses nothing. */
  lemma {:induction false} SplitJoin(parts: seq<string>, sep: char)
    requires |parts| >= 1
    requires forall k :: 0 <= k < |parts| ==> sep !in parts[k]
    ensures Split(Join(parts, sep), sep) == parts
  {
    if |parts| == 1 {
      SplitNoSep(parts[0], sep);
    } else {
      SplitJoin(parts[1..], sep);
      SplitAtFirstSep(parts[0], Join(parts[1..], sep), sep);
      assert [parts[0]] + parts[1..] == parts;
    }
  }

  /** One line per header key, in insertion order; the value is never interpolated. */
  function HeaderLines(headers: Table): (lines: seq<string>)
    ensures |lines| == |headers|
    ensures forall k :: 0 <= k < |lines| ==> lines[k] == headers[k].0 + ": " + ValueText
  {
    seq(|headers|, k requires 0 <= k < |headers| => headers[k].0 + ": " + ValueText)
  }

  /** `stringify_headers`: nil or an empty hash gives ""; otherwise the lines joined by a newline. */
  function StringifyHeaders(headers: Option<Table>): (block: string)
    ensures headers.None? || headers.value == [] ==> block == ""
    ensures headers.Some? ==> block == Join(HeaderLines(headers.value), '\n')
  {
    Join(HeaderLines(headers.GetOr([])), '\n')
  }

  /**
   * The header block of a non-empty table whose keys hold no newline splits back
   * into exactly one `key: val` line per header, in order, whatever the values were.
   */
  lemma StringifyHeadersLines(headers: Table)
    requires |headers| >= 1
    requires forall k :: 0 <= k < |headers| ==> '\n' !in headers[k].0
    ensures Split(StringifyHeaders(Some(headers)), '\n') == HeaderLines(headers)
  {
    var lines := HeaderLines(headers);
    forall k | 0 <= k < |lines|
      ensures '\n' !in lines[k]
    {
      assert lines[k] == headers[k].0 + ": val";
    }
    SplitJoin(lines, '\n');
  }

  /**
   * `PostmanRequest.new(example, request, configuration).as_json`, `time` being the
   * `Time.now.to_i` it reads: the id is the key of the full description and the folder
   * the key of the metadata's resource name.
   */
  function AsJson(hash: Obj -> int, metadata: Metadata, request: Interaction, time: int): (r: Request)
    ensures r.id == PostmanFolder.GenerateKey(hash, StrOrNil(metadata.fullDescription))
    ensures r.folder == PostmanFolder.GenerateKey(hash, StrOrNil(metadata.resourceName))
  {
    Request(
      id := PostmanFolder.GenerateKey(hash, StrOrNil(metadata.fullDescription)),
      headers := StringifyHeaders(request.requestHeaders),
      url := Host + request.requestPath.GetOr(""),
      pathVariables := [],
      preRequestScript := "",
      httpMethod := request.requestMethod,
      collectionId := FixedCollectionId,
      data := [],
      dataMode := "raw",
      name := metadata.description,
      description := metadata.fullDescription,
      descriptionFormat := "html",
      time := time,
      version := 2,
      responses := [],
      tests := "",
      currentHelper := "normal",
      helperAttributes := [],
      folder := PostmanFolder.GenerateKey(hash, StrOrNil(metadata.resourceName)),
      rawModeData := request.requestBody)
  }


  /**
   * The other fields of a request record: the URL is the fixed host followed by the
   * request path (nil reads as ""), the header block is `stringify_headers` of the request
   * headers, method, body, name and description are copied, and the rest are constants.
   */
  lemma RequestFields(hash: Obj -> int, metadata: Metadata, request: Interaction, time: int)
    ensures var r := AsJson(hash, metadata, request, time);
      && |r.url| >= |Host| && r.url[..|Host|] == Host && r.url[|Host|..] == request.requestPath.GetOr("")
      && r.headers == StringifyHeaders(request.requestHeaders)
      && r.httpMethod == request.requestMethod && r.rawModeData == request.requestBody
      && r.name == metadata.description && r.description == metadata.fullDescription
      && r.time == time
      && HasFixedFields(r)
  {
  }

  /** The fixture's `{"Header" => "value"}` renders as one line with the literal text `val`. */
  lemma SingleHeader()
    ensures StringifyHeaders(Some([("Header", "value")])) == "Header: val"
  {
  }
}
