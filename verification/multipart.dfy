// Multipart.java: multipart uploads. The proxy keeps, per upload, the parts it accepted (tree
// hash and length, in arrival order); completion checks that every part but the last is
// full-sized and that the lengths add up to the declared archive size.

module Multipart {
  import opened Options
  import opened Strings
  import opened Numbers
  import opened Uuids
  import opened Http
  import opened Util
  import opened BlobStore
  import opened GlacierProxy
  import opened Listings

  const MAX_PARTS := 10000

  // ---- Content-Range ----

  /** The Content-Range text a client sends for bytes start..end of an upload. */
  function RangeHeader(start: string, end: string): string {
    "bytes " + start + "-" + end + "/*"
  }

  /** CONTENT_RANGE_RE, `bytes (?<start>[0-9]+)-(?<end>[0-9]+)/\*`, matched against the whole
      header: the two digit groups, or None when the header does not match. */
  function MatchContentRange(h: string): (r: Option<(string, string)>)
    ensures r.Some? ==> IsDigits(r.value.0) && IsDigits(r.value.1) && h == RangeHeader(r.value.0, r.value.1)
  {
    if |h| >= 8 && StartsWith(h, "bytes ") && EndsWith(h, "/*") then
      var pieces := Split(h[6..|h| - 2], '-');
      if |pieces| == 2 && IsDigits(pieces[0]) && IsDigits(pieces[1]) then
        HeaderAroundMiddle(h);
        TwoPieces(h[6..|h| - 2]);
        Some((pieces[0], pieces[1]))
      else None
    else None
  }

  lemma HeaderAroundMiddle(h: string)
    requires |h| >= 8 && StartsWith(h, "bytes ") && EndsWith(h, "/*")
    ensures h == "bytes " + h[6..|h| - 2] + "/*"
  {
    assert h == h[..6] + h[6..|h| - 2] + h[|h| - 2..];
  }

  lemma TwoPieces(middle: string)
    requires |Split(middle, '-')| == 2
    ensures middle == Split(middle, '-')[0] + "-" + Split(middle, '-')[1]
  {
    var pieces := Split(middle, '-');
    JoinSplit(middle, '-');
    JoinHead(pieces, '-');
    JoinHead(pieces[1..], '-');
  }

  lemma DigitsHaveNoDash(s: string)
    requires IsDigits(s)
    ensures '-' !in s
  {
    assert forall i :: 0 <= i < |s| ==> s[i] != '-';
  }

  /** Every header of the form the expression describes matches, with its own two numbers. */
  lemma MatchRangeHeader(start: string, end: string)
    requires IsDigits(start) && IsDigits(end)
    ensures MatchContentRange(RangeHeader(start, end)) == Some((start, end))
  {
    var h := RangeHeader(start, end);
    DigitsHaveNoDash(start);
    DigitsHaveNoDash(end);
    SplitJoin([start, end], '-');
    JoinHead([start, end], '-');
    assert h[6..|h| - 2] == start + "-" + end;
    assert h[..6] == "bytes ";
    assert h[|h| - 2..] == "/*";
  }

  // ---- Accepting a part ----

  /** The verdict on one part, given its parsed range, the upload's part size and the number
      of parts accepted so far. */
  datatype PartCheck = Accept(partNumber: int, size: int) | Reject(message: string) | Raise(fault: Fault)

  /** The checks of handlePut in their order, in Java long arithmetic: the part's length
      end-start+1 may not exceed the part size, the start must be a multiple of the part size
      (a zero part size divides by zero), and at most 10000 parts may already be held. The
      part number is start/partSize+1 cast to int. */
  function CheckPart(start: int, end: int, partSize: int, partCount: int): (r: PartCheck)
    ensures r.Accept? <==> Wrap64(end - start + 1) <= partSize && partSize != 0
                           && JavaRem(start, partSize) == 0 && partCount <= MAX_PARTS
    ensures r.Accept? ==> r.size == Wrap64(end - start + 1) && r.size <= partSize
    ensures Wrap64(end - start + 1) > partSize ==> r == Reject("Part size must be smaller than " + FormatLong(partSize))
    ensures Wrap64(end - start + 1) <= partSize && partSize == 0 ==> r == Raise(Arithmetic)
    ensures Wrap64(end - start + 1) <= partSize && partSize != 0 && JavaRem(start, partSize) != 0 ==>
      r == Reject("Starting part range does not align " + FormatLong(start))
    ensures Wrap64(end - start + 1) <= partSize && partSize != 0 && JavaRem(start, partSize) == 0 && partCount > MAX_PARTS ==>
      r == Reject("Cannot have more than 10000 parts")
  {
    var size := Wrap64(end - start + 1);
    if size > partSize then Reject("Part size must be smaller than " + FormatLong(partSize))
    else if partSize == 0 then Raise(Arithmetic)
    else if JavaRem(start, partSize) != 0 then Reject("Starting part range does not align " + FormatLong(start))
    else if partCount > MAX_PARTS then Reject("Cannot have more than 10000 parts")
    else Accept(Wrap32(Wrap64(JavaDiv(start, partSize)) + 1), size)
  }

  /** Parts are numbered from 1: an accepted part starting at byte `start` of an upload with a
      positive part size is part start/partSize+1, so it starts at (partNumber-1)*partSize,
      and a part whose range is not reversed is between 1 and partSize bytes long. */
  lemma PartNumberLocatesPart(start: int, end: int, partSize: int, partCount: int)
    requires 0 <= start <= end <= LONG_MAX && end - start < LONG_MAX && 0 < partSize
    requires start / partSize < INT_MAX
    requires CheckPart(start, end, partSize, partCount).Accept?
    ensures var r := CheckPart(start, end, partSize, partCount);
      && r.partNumber >= 1
      && start == (r.partNumber - 1) * partSize
      && 1 <= r.size <= partSize
      && r.size == end - start + 1
  {
    var q := start / partSize;
    assert JavaDiv(start, partSize) == q;
    assert start % partSize == 0;
    assert start == q * partSize;
  }

  /** The first part of an upload is part 1, whatever the part size. */
  lemma FirstPartIsOne(end: int, partSize: int)
    requires 0 <= end < partSize <= LONG_MAX
    ensures CheckPart(0, end, partSize, 0) == Accept(1, end + 1)
  {
    assert JavaDiv(0, partSize) == 0;
  }

  /** The cap is tested before the part is added, so with 10000 parts held one more is
      accepted, and only from 10001 held parts on is every part refused, whatever its range. */
  lemma PartCapAdmitsOneMore(partSize: int, start: int, end: int)
    requires 1 <= partSize <= LONG_MAX
    ensures CheckPart(0, 0, partSize, MAX_PARTS) == Accept(1, 1)
    ensures !CheckPart(start, end, partSize, MAX_PARTS + 1).Accept?
  {
    assert JavaDiv(0, partSize) == 0;
  }

  /** A reversed range is not refused: it is accepted as a part of length zero or less. */
  lemma ReversedRangeIsAccepted(partSize: int)
    requires 2 <= partSize <= LONG_MAX
    ensures CheckPart(partSize, 0, partSize, 0) == Accept(2, 1 - partSize)
  {
    assert JavaDiv(partSize, partSize) == 1;
    assert JavaRem(partSize, partSize) == 0;
  }

  /** What handlePut does after it has found the upload. */
  datatype PartResult = Appended(part: UploadPart, answer: Response) | Refused(outcome: Outcome)

  /** The rest of handlePut: read and check the Content-Range (a missing header dereferences
      null, overflowing digits are "Invalid range"), check the part, ask the store to save it,
      and on success append the part with the request's tree hash and echo that hash in a 204. */
  function ReceivePart(headers: map<string, string>, partSize: int, partCount: int, failing: set<StoreCall>): (r: PartResult)
    requires "x-amz-sha256-tree-hash" in headers
    ensures r.Appended? <==>
      && "Content-Range" in headers && MatchContentRange(headers["Content-Range"]).Some?
      && var (a, b) := MatchContentRange(headers["Content-Range"]).value;
      && ParseLong(a).Some? && ParseLong(b).Some?
      && CheckPart(ParseLong(a).value, ParseLong(b).value, partSize, partCount).Accept?
      && UploadMultipartPart !in failing
    ensures r.Appended? ==>
      && var (a, b) := MatchContentRange(headers["Content-Range"]).value;
      && r.part == UploadPart(headers["x-amz-sha256-tree-hash"], Wrap64(ParseLong(b).value - ParseLong(a).value + 1))
      && r.part.size <= partSize
      && r.answer == Response(NO_CONTENT, map["x-amz-sha256-tree-hash" := headers["x-amz-sha256-tree-hash"]], NoBody)
    ensures "Content-Range" !in headers ==> r == Refused(Threw(NullPointer))
    ensures "Content-Range" in headers && MatchContentRange(headers["Content-Range"]).None? ==>
      r == Refused(Answered(BadRequest("Invalid content range")))
    ensures "Content-Range" in headers && MatchContentRange(headers["Content-Range"]).Some? ==>
      var (a, b) := MatchContentRange(headers["Content-Range"]).value;
      && (ParseLong(a).None? || ParseLong(b).None? ==> r == Refused(Answered(BadRequest("Invalid range"))))
      && (ParseLong(a).Some? && ParseLong(b).Some? ==>
            var verdict := CheckPart(ParseLong(a).value, ParseLong(b).value, partSize, partCount);
            && (verdict.Reject? ==> r == Refused(Answered(BadRequest(verdict.message))))
            && (verdict.Raise? ==> r == Refused(Threw(verdict.fault)))
            && (verdict.Accept? && UploadMultipartPart in failing ==>
                  r == Refused(Answered(ServerError("Failed to save the part")))))
  {
    if "Content-Range" !in headers then Refused(Threw(NullPointer))
    else match MatchContentRange(headers["Content-Range"])
      case None => Refused(Answered(BadRequest("Invalid content range")))
      case Some((a, b)) =>
        if ParseLong(a).None? || ParseLong(b).None? then Refused(Answered(BadRequest("Invalid range")))
        else match CheckPart(ParseLong(a).value, ParseLong(b).value, partSize, partCount)
          case Reject(message) => Refused(Answered(BadRequest(message)))
          case Raise(fault) => Refused(Threw(fault))
          case Accept(_, size) =>
            if UploadMultipartPart in failing then Refused(Answered(ServerError("Failed to save the part")))
            else
              var treeHash := headers["x-amz-sha256-tree-hash"];
              Appended(UploadPart(treeHash, size), Response(NO_CONTENT, map["x-amz-sha256-tree-hash" := treeHash], NoBody))
  }

  /** The first of `names` the request's headers lack, in the order the handler checks them
      (the loops over the required headers in handlePut and completeMultipartUpload). */
  function FirstMissing(headers: map<string, string>, names: seq<string>): (r: Option<string>)
    ensures r.None? <==> forall n :: n in names ==> n in headers
    ensures r.Some? ==> exists i :: 0 <= i < |names| && names[i] == r.value && r.value !in headers
                                   && forall j :: 0 <= j < i ==> names[j] in headers
  {
    if names == [] then None
    else if names[0] !in headers then Some(names[0])
    else
      var rest := FirstMissing(headers, names[1..]);
      assert rest.Some? ==> exists i :: 0 <= i < |names[1..]| && names[1..][i] == rest.value && rest.value !in headers
                                   && forall j :: 0 <= j < i ==> names[1..][j] in headers;
      rest
  }

  /** The headers a part upload must carry. */
  const PutHeaders: seq<string> := ["x-amz-content-sha256", "x-amz-sha256-tree-hash"]

  /** handlePut: upload one part. Only an accepted part changes anything, and then exactly one
      part is appended to exactly one upload. */
  twostate predicate PutAnswer(p: Proxy, req: Request, params: map<string, string>, env: Env, o: Outcome)
    requires "vault" in params
    reads p, p.uploads.Values
  {
    && p.uploads == old(p.uploads)
    && if "upload" !in params then o == Answered(NotFound("Upload", None)) && PartsKept(p)
       else if FirstMissing(req.headers, PutHeaders).Some? then
         o == Answered(BadRequest("Header " + FirstMissing(req.headers, PutHeaders).value + " not found")) && PartsKept(p)
       else if ParseUuid(params["upload"]).None? then o == Threw(IllegalArgument) && PartsKept(p)
       else if p.GetUpload(params["vault"], ParseUuid(params["upload"]).value).None? then
         o == Answered(NotFound("Upload", Some(params["upload"]))) && PartsKept(p)
       else
         var u := p.GetUpload(params["vault"], ParseUuid(params["upload"]).value).value;
         match ReceivePart(req.headers, u.partSize, |old(u.parts)|, env.failing)
         case Appended(part, answer) =>
           && o == Answered(answer)
           && u.parts == old(u.parts) + [part]
           && (forall v :: v in p.uploads.Values && v != u ==> v.parts == old(v.parts))
         case Refused(outcome) => o == outcome && PartsKept(p)
  }

  /** The upload index is as it was, and so is every upload's list of parts. */
  twostate predicate PartsKept(p: Proxy)
    reads p, p.uploads.Values
  {
    && p.uploads == old(p.uploads)
    && forall v :: v in p.uploads.Values ==> v.parts == old(v.parts)
  }

  method HandlePut(p: Proxy, req: Request, params: map<string, string>, env: Env) returns (o: Outcome)
    requires "vault" in params && p.Valid()
    modifies p.uploads.Values
    ensures PutAnswer(p, req, params, env, o)
  {
    if "upload" !in params {
      return Answered(NotFound("Upload", None));
    }
    var missing := FirstMissing(req.headers, PutHeaders);
    if missing.Some? {
      return Answered(BadRequest("Header " + missing.value + " not found"));
    }
    var uploadId := ParseUuid(params["upload"]);
    if uploadId.None? {
      return Threw(IllegalArgument);
    }
    var found := p.GetUpload(params["vault"], uploadId.value);
    if found.None? {
      return Answered(NotFound("Upload", Some(params["upload"])));
    }
    var u := found.value;
    match ReceivePart(req.headers, u.partSize, |u.parts|, env.failing)
    case Refused(outcome) =>
      o := outcome;
    case Appended(part, answer) =>
      u.parts := u.parts + [part];
      o := Answered(answer);
  }

  // ---- Listing parts ----

  /** The JSON part entry for a part starting at byte `start`: its tree hash and the range
      "start-(start+size-1)" in long arithmetic. */
  function PartRange(part: UploadPart, start: int): PartView {
    PartView(part.treeHash, FormatLong(start) + "-" + FormatLong(Wrap64(start + part.size - 1)))
  }

  /** The total length of the parts. */
  function Sum(parts: seq<UploadPart>): int {
    if |parts| == 0 then 0 else Sum(parts[..|parts| - 1]) + parts[|parts| - 1].size
  }

  /** The part entries as handleListParts reports them: part j starts at the total length,
      in long arithmetic, of the parts before it. */
  function PartRanges(parts: seq<UploadPart>): (r: seq<PartView>)
    ensures |r| == |parts|
  {
    seq(|parts|, j requires 0 <= j < |parts| => PartRange(parts[j], Wrap64(Sum(parts[..j]))))
  }

  /** Start and prefix totals that stay within the range of a Java long. */
  predicate NoOverflow(parts: seq<UploadPart>) {
    forall j :: 0 <= j <= |parts| ==> 0 <= Sum(parts[..j]) <= LONG_MAX
  }

  /** Without overflow, the listed ranges tile the archive: part i covers bytes
      Sum(parts[..i]) to Sum(parts[..i+1])-1, so each range begins right after the one before. */
  lemma RangesAreContiguous(parts: seq<UploadPart>, i: int)
    requires 0 <= i < |parts| && NoOverflow(parts)
    ensures PartRanges(parts)[i] ==
      PartView(parts[i].treeHash, FormatLong(Sum(parts[..i])) + "-" + FormatLong(Sum(parts[..i + 1]) - 1))
  {
    assert parts[..i + 1][..i] == parts[..i];
    assert 0 <= Sum(parts[..i]) <= LONG_MAX;
    assert 0 <= Sum(parts[..i + 1]) <= LONG_MAX;
  }

  /** The running start after part i is the long total of the first i+1 parts. */
  lemma NextStart(parts: seq<UploadPart>, i: int)
    requires 0 <= i < |parts|
    ensures Wrap64(Wrap64(Sum(parts[..i])) + parts[i].size) == Wrap64(Sum(parts[..i + 1]))
  {
    WrapAdd(Sum(parts[..i]), parts[i].size);
    assert parts[..i + 1][..i] == parts[..i];
  }

  /** One more part adds one more entry, starting at the total of the parts before it. */
  lemma PartRangesSnoc(parts: seq<UploadPart>, i: int)
    requires 0 <= i < |parts|
    ensures PartRanges(parts[..i + 1]) == PartRanges(parts[..i]) + [PartRange(parts[i], Wrap64(Sum(parts[..i])))]
  {
    var shorter, longer := parts[..i], parts[..i + 1];
    var extended := PartRanges(shorter) + [PartRange(parts[i], Wrap64(Sum(shorter)))];
    var ranges := PartRanges(longer);
    forall j | 0 <= j <= i
      ensures ranges[j] == extended[j]
    {
      if j < i {
        assert longer[..j] == shorter[..j] && longer[j] == shorter[j];
      } else {
        assert longer[..j] == shorter;
      }
    }
  }

  /** The loop of handleListParts: a running start, advanced by each part's length. */
  method RangesOf(parts: seq<UploadPart>) returns (views: seq<PartView>)
    ensures views == PartRanges(parts)
  {
    views := [];
    var rangeStart := 0;
    var i := 0;
    while i < |parts|
      invariant 0 <= i <= |parts|
      invariant rangeStart == Wrap64(Sum(parts[..i]))
      invariant views == PartRanges(parts[..i])
    {
      NextStart(parts, i);
      PartRangesSnoc(parts, i);
      views := views + [PartRange(parts[i], rangeStart)];
      rangeStart := Wrap64(rangeStart + parts[i].size);
      i := i + 1;
    }
    assert parts[..i] == parts;
  }

  /** handleListParts: the upload's parts, in the order received, with their byte ranges. An id
      that is not a UUID is NotFound; an unknown upload is answered NotFound and the handler
      then dereferences the missing upload. The upload's blob metadata was built without a date,
      so its CreationDate is `getTimeStamp(null)`: the time of the listing, `now`. */
  ghost predicate PartsAnswer(o: Outcome, p: Proxy, params: map<string, string>, now: string)
    requires "vault" in params && "upload" in params
    reads p, p.uploads.Values
  {
    if ParseUuid(params["upload"]).None? then o == Answered(NotFound("multipart upload", Some(params["upload"])))
    else if p.GetUpload(params["vault"], ParseUuid(params["upload"]).value).None? then
      o == Outcome(Some(NotFound("multipart upload", Some(params["upload"]))), Some(NullPointer))
    else
      var u := p.GetUpload(params["vault"], ParseUuid(params["upload"]).value).value;
      o == Answered(Json(OK, PartList(u.description, now, None, params["upload"], u.partSize,
                                      PartRanges(u.parts), GetArn(FormatParam(params, "account"), params["vault"]))))
  }

  method ListParts(p: Proxy, params: map<string, string>, env: Env) returns (o: Outcome)
    requires "vault" in params && "upload" in params
    ensures PartsAnswer(o, p, params, env.now)
  {
    var uploadIdParam := params["upload"];
    var uploadId := ParseUuid(uploadIdParam);
    if uploadId.None? {
      return Answered(NotFound("multipart upload", Some(uploadIdParam)));
    }
    var vault := params["vault"];
    var found := p.GetUpload(vault, uploadId.value);
    if found.None? {
      return Outcome(Some(NotFound("multipart upload", Some(uploadIdParam))), Some(NullPointer));
    }
    var u := found.value;
    var views := RangesOf(u.parts);
    o := Answered(Json(OK, PartList(u.description, env.now, None, uploadIdParam, u.partSize, views,
                                    GetArn(FormatParam(params, "account"), vault))));
  }

  // ---- Completing ----

  /** Adding to a wrapped long and wrapping again is the same as adding and wrapping once. */
  lemma WrapAdd(a: int, b: int)
    ensures Wrap64(Wrap64(a) + b) == Wrap64(a + b)
  {
    var k := (a - LONG_MIN) / 0x1_0000_0000_0000_0000;
    assert Wrap64(a) == a - k * 0x1_0000_0000_0000_0000;
    ModShift(a + b - LONG_MIN, k);
  }

  lemma ModShift(x: int, k: int)
    ensures (x - k * 0x1_0000_0000_0000_0000) % 0x1_0000_0000_0000_0000 == x % 0x1_0000_0000_0000_0000
  {
  }

  /** Whether every part but the last has exactly the upload's part size. */
  predicate FullExceptLast(parts: seq<UploadPart>, partSize: int) {
    forall i :: 0 <= i < |parts| - 1 ==> parts[i].size == partSize
  }

  /** The first part, other than the last, whose length is not the part size. */
  function FirstShortPart(parts: seq<UploadPart>, partSize: int): (r: Option<nat>)
    ensures r.None? <==> FullExceptLast(parts, partSize)
    ensures r.Some? ==> r.value < |parts| - 1 && parts[r.value].size != partSize
                        && FullExceptLast(parts[..r.value + 1], partSize)
  {
    if |parts| <= 1 then None
    else if parts[0].size != partSize then Some(0)
    else match FirstShortPart(parts[1..], partSize)
      case None => None
      case Some(i) => Some(i + 1)
  }

  /** The refusal completion gives for the parts held and the declared archive size: the
      first short part that is not the last, else a total (in long arithmetic) that differs
      from the declared size; None when the upload may be completed. */
  function CompletionError(parts: seq<UploadPart>, partSize: int, declared: int): (r: Option<string>)
    ensures r.None? <==> FullExceptLast(parts, partSize) && Wrap64(Sum(parts)) == declared
  {
    match FirstShortPart(parts, partSize)
    case Some(i) => Some("Uploaded part is smaller than part size and is not last: " + FormatLong(parts[i].size))
    case None =>
      if Wrap64(Sum(parts)) != declared then
        Some("Uploaded size does not match the header: " + FormatLong(Wrap64(Sum(parts))) + " " + FormatLong(declared))
      else None
  }

  /** An upload that may be completed and whose total does not overflow consists of n-1
      full parts and a last part: the declared size is (n-1)*partSize plus the last length. */
  lemma {:induction false} CompletedSizeIsAligned(parts: seq<UploadPart>, partSize: int, declared: int)
    requires |parts| > 0 && CompletionError(parts, partSize, declared).None?
    requires LONG_MIN <= Sum(parts) <= LONG_MAX
    ensures declared == (|parts| - 1) * partSize + parts[|parts| - 1].size
  {
    FullSum(parts[..|parts| - 1], partSize);
  }

  lemma {:induction false} FullSum(parts: seq<UploadPart>, partSize: int)
    requires forall i :: 0 <= i < |parts| ==> parts[i].size == partSize
    ensures Sum(parts) == |parts| * partSize
    decreases |parts|
  {
    if |parts| > 0 {
      FullSum(parts[..|parts| - 1], partSize);
    }
  }

  /** The loop of handleCompleteMultipartUpload: adds up the lengths in long arithmetic and
      stops at the first short part that is not the last. */
  method CheckCompletion(parts: seq<UploadPart>, partSize: int, declared: int) returns (r: Option<string>)
    ensures r == CompletionError(parts, partSize, declared)
  {
    var uploadedSize := 0;
    var i := 0;
    while i < |parts|
      invariant 0 <= i <= |parts|
      invariant uploadedSize == Wrap64(Sum(parts[..i]))
      invariant forall j :: 0 <= j < i && j < |parts| - 1 ==> parts[j].size == partSize
    {
      WrapAdd(Sum(parts[..i]), parts[i].size);
      assert parts[..i + 1][..i] == parts[..i];
      uploadedSize := Wrap64(uploadedSize + parts[i].size);
      if i < |parts| - 1 && parts[i].size != partSize {
        assert FirstShortPart(parts, partSize) == Some(i) by {
          FirstShortIsFirst(parts, partSize, i);
        }
        return Some("Uploaded part is smaller than part size and is not last: " + FormatLong(parts[i].size));
      }
      i := i + 1;
    }
    assert parts[..i] == parts;
    if uploadedSize != declared {
      return Some("Uploaded size does not match the header: " + FormatLong(uploadedSize) + " " + FormatLong(declared));
    }
    r := None;
  }

  lemma {:induction false} FirstShortIsFirst(parts: seq<UploadPart>, partSize: int, i: nat)
    requires i < |parts| - 1 && parts[i].size != partSize
    requires forall j :: 0 <= j < i ==> parts[j].size == partSize
    ensures FirstShortPart(parts, partSize) == Some(i)
    decreases i
  {
    if i > 0 {
      FirstShortIsFirst(parts[1..], partSize, i - 1);
    }
  }

  /** The headers a completion request must carry. */
  const CompleteHeaders: seq<string> := ["x-amz-archive-size", "x-amz-sha256-tree-hash"]

  /** The vault after completion: the store assembles the archive blob, named by the upload's
      archive id, holding the parts' total length. */
  function WithAssembled(s: Store, vault: string, name: string, length: int, now: string): (r: Store)
    requires vault in s
    ensures r.Keys == s.Keys && r[vault].blobs == s[vault].blobs[name := Blob(Payload(length), now)]
    ensures forall c :: c in s && c != vault ==> r[c] == s[c]
  {
    s[vault := s[vault].(blobs := s[vault].blobs[name := Blob(Payload(length), now)])]
  }

  /** handleCompleteMultipartUpload. On success the archive is in the vault under the upload's
      archive id, the upload leaves the index, and the answer is 201 whose Location names the
      upload id (not the archive id). Every refusal leaves the state as it was. */
  twostate predicate CompleteAnswer(p: Proxy, req: Request, params: map<string, string>, env: Env, o: Outcome)
    requires "vault" in params && "upload" in params
    reads p
  {
    && (o.sent.None? || o.sent.value.status != CREATED ==>
          p.containers == old(p.containers) && p.uploads == old(p.uploads))
    && if ParseUuid(params["upload"]).None? || old(p.GetUpload(params["vault"], ParseUuid(params["upload"]).value)).None? then
         o == Answered(NotFound("multipart upload", Some(params["upload"])))
       else
         var vault := params["vault"];
         var id := ParseUuid(params["upload"]).value;
         var u := old(p.GetUpload(vault, id)).value;
         var size := if "x-amz-archive-size" in req.headers then ParseLong(req.headers["x-amz-archive-size"]) else None;
         if FirstMissing(req.headers, CompleteHeaders).Some? then
           o == Answered(BadRequest("Missing header " + FirstMissing(req.headers, CompleteHeaders).value))
         else if size.None? then
           o == Answered(BadRequest("Improper size " + req.headers["x-amz-archive-size"]))
         else if CompletionError(old(u.parts), u.partSize, size.value).Some? then
           o == Answered(BadRequest(CompletionError(old(u.parts), u.partSize, size.value).value))
         else if CompleteMultipartUpload in env.failing then
           o == Answered(ServerError("Failed to completed upload " + id))
         else if vault !in old(p.containers) then
           o == Threw(ContainerNotFound)
         else
           && o == Answered(Response(CREATED, map["x-amz-archive-id" := u.archiveId,
                                                  "Location" := GetArchiveLocation(FormatParam(params, "account"), vault, params["upload"])], NoBody))
           && p.containers == WithAssembled(old(p.containers), vault, u.archiveId, size.value, env.now)
           && p.GetUpload(vault, id).None?
           && (forall v, i :: (v, i) != (vault, id) ==> p.GetUpload(v, i) == old(p.GetUpload(v, i)))
  }

  method CompleteMultipart(p: Proxy, req: Request, params: map<string, string>, env: Env) returns (o: Outcome)
    requires "vault" in params && "upload" in params && p.Valid()
    modifies p
    ensures p.Valid() && p.jobMap == old(p.jobMap)
    ensures CompleteAnswer(p, req, params, env, o)
  {
    var uploadIdParam := params["upload"];
    var uploadId := ParseUuid(uploadIdParam);
    if uploadId.None? {
      return Answered(NotFound("multipart upload", Some(uploadIdParam)));
    }
    var vault := params["vault"];
    var found := p.GetUpload(vault, uploadId.value);
    if found.None? {
      return Answered(NotFound("multipart upload", Some(uploadIdParam)));
    }
    var u := found.value;
    var missing := FirstMissing(req.headers, CompleteHeaders);
    if missing.Some? {
      return Answered(BadRequest("Missing header " + missing.value));
    }
    var requestUploadSize := ParseLong(req.headers["x-amz-archive-size"]);
    if requestUploadSize.None? {
      return Answered(BadRequest("Improper size " + req.headers["x-amz-archive-size"]));
    }
    var refusal := CheckCompletion(u.parts, u.partSize, requestUploadSize.value);
    if refusal.Some? {
      return Answered(BadRequest(refusal.value));
    }
    if CompleteMultipartUpload in env.failing {
      return Answered(ServerError("Failed to completed upload " + uploadId.value));
    }
    if vault !in p.containers {
      return Threw(ContainerNotFound);
    }
    p.containers := WithAssembled(p.containers, vault, u.archiveId, requestUploadSize.value, env.now);
    p.CompleteUpload(vault, uploadId.value);
    o := Answered(Response(CREATED, map["x-amz-archive-id" := u.archiveId,
                                        "Location" := GetArchiveLocation(FormatParam(params, "account"), vault, uploadIdParam)], NoBody));
  }

  // ---- Creating, aborting and listing uploads ----

  /** handleCreateMultipartUpload: a new upload with no parts, the parsed part size (not
      checked for sign), the optional description and a fresh archive id; the answer is 201 with the new upload id and its Location. */
  twostate predicate CreateAnswer(p: Proxy, req: Request, params: map<string, string>, env: Env, o: Outcome)
    requires "vault" in params
    reads p, p.uploads.Values
  {
    && p.containers == old(p.containers)
    && var vault := params["vault"];
       if vault !in p.containers then
         o == Answered(NotFound("Vault", Some(vault))) && p.uploads == old(p.uploads)
       else if "x-amz-part-size" !in req.headers then
         o == Answered(BadRequest("Missing part size header (x-amz-part-size)")) && p.uploads == old(p.uploads)
       else if ParseLong(req.headers["x-amz-part-size"]).None? then
         o == Answered(BadRequest("Invalid part size")) && p.uploads == old(p.uploads)
       else if InitiateMultipartUpload in env.failing then
         o == Answered(ServerError("Failed to create an upload")) && p.uploads == old(p.uploads)
       else
         && o == Answered(Response(CREATED, map["x-amz-multipart-upload-id" := env.secondId,
                                                "Location" := GetMultipartLocation(FormatParam(params, "account"), vault, env.secondId)], NoBody))
         && p.GetUpload(vault, env.secondId).Some?
         && var u := p.GetUpload(vault, env.secondId).value;
         && fresh(u) && u.parts == []
         && u.partSize == ParseLong(req.headers["x-amz-part-size"]).value
         && u.description == (if "x-amz-archive-description" in req.headers then Some(req.headers["x-amz-archive-description"]) else None)
         && u.archiveId == env.newId
         && (forall v, i :: (v, i) != (vault, env.secondId) ==> p.GetUpload(v, i) == old(p.GetUpload(v, i)))
  }

  method CreateMultipart(p: Proxy, req: Request, params: map<string, string>, env: Env) returns (o: Outcome)
    requires "vault" in params && p.Valid()
    modifies p
    ensures p.Valid() && p.jobMap == old(p.jobMap)
    ensures CreateAnswer(p, req, params, env, o)
  {
    var vault := params["vault"];
    if vault !in p.containers {
      return Answered(NotFound("Vault", Some(vault)));
    }
    if "x-amz-part-size" !in req.headers {
      return Answered(BadRequest("Missing part size header (x-amz-part-size)"));
    }
    var partSize := ParseLong(req.headers["x-amz-part-size"]);
    if partSize.None? {
      return Answered(BadRequest("Invalid part size"));
    }
    if InitiateMultipartUpload in env.failing {
      return Answered(ServerError("Failed to create an upload"));
    }
    var description := if "x-amz-archive-description" in req.headers then Some(req.headers["x-amz-archive-description"]) else None;
    var u := new Upload(partSize.value, description, env.newId);
    var uploadId := p.CreateMultipartUpload(vault, u, env.secondId);
    o := Answered(Response(CREATED, map["x-amz-multipart-upload-id" := uploadId,
                                        "Location" := GetMultipartLocation(FormatParam(params, "account"), vault, uploadId)], NoBody));
  }

  /** handleDelete (abort): answers 204 for a known upload, but the upload stays in the index,
      so its parts can still be listed and it can still be completed. */
  predicate AbortAnswer(o: Outcome, p: Proxy, params: map<string, string>)
    requires "vault" in params
    reads p
  {
    if "upload" !in params then o == Answered(NotFound("multipart upload", None))
    else if ParseUuid(params["upload"]).None? then o == Threw(IllegalArgument)
    else if p.GetUpload(params["vault"], ParseUuid(params["upload"]).value).None? then
      o == Answered(NotFound("Multipart upload", Some(params["upload"])))
    else o == Answered(Status(NO_CONTENT))
  }

  method Abort(p: Proxy, params: map<string, string>) returns (o: Outcome)
    requires "vault" in params
    ensures AbortAnswer(o, p, params)
  {
    if "upload" !in params {
      return Answered(NotFound("multipart upload", None));
    }
    var uploadId := ParseUuid(params["upload"]);
    if uploadId.None? {
      return Threw(IllegalArgument);
    }
    var found := p.GetUpload(params["vault"], uploadId.value);
    if found.None? {
      return Answered(NotFound("Multipart upload", Some(params["upload"])));
    }
    o := Answered(Status(NO_CONTENT));
  }

  /** The uploads of one vault, by upload id. */
  function VaultUploads(uploads: map<(string, Uuid), Upload>, vault: string): (r: map<Uuid, Upload>)
    ensures forall id :: id in r <==> (vault, id) in uploads
    ensures forall id :: id in r ==> r[id] == uploads[(vault, id)]
  {
    map k | k in uploads && k.0 == vault :: k.1 := uploads[k]
  }

  /** Upload.toJSON with the upload id and the vault's ARN added. Its CreationDate is the time
      of the listing, since the upload's blob metadata carries no date. */
  function UploadEntry(account: string, vault: string, id: string, u: Upload, now: string): UploadView {
    UploadView(now, u.description, u.partSize, id, GetArn(account, vault))
  }

  ghost predicate ListsUploads(views: seq<UploadView>, uploads: map<string, Upload>, account: string, vault: string, now: string) {
    Lists(views, uploads, (id, u) => UploadEntry(account, vault, id, u, now), (v: UploadView) => v.multipartUploadId)
  }

  /** handleListUploads: NotFound for a missing vault; otherwise every upload in progress in
      the vault, each once, with a null marker. */
  ghost predicate UploadsAnswer(o: Outcome, p: Proxy, params: map<string, string>, now: string)
    requires "vault" in params
    reads p
  {
    if params["vault"] !in p.containers then o == Answered(NotFound("vault", Some(params["vault"])))
    else
      && o.thrown.None? && o.sent.Some? && o.sent.value.status == OK
      && o.sent.value.body.UploadList? && o.sent.value.body.uploadMarker.None?
      && ListsUploads(o.sent.value.body.uploads, VaultUploads(p.uploads, params["vault"]), FormatParam(params, "account"), params["vault"], now)
  }

  method ListUploads(p: Proxy, params: map<string, string>, env: Env) returns (o: Outcome)
    requires "vault" in params
    ensures UploadsAnswer(o, p, params, env.now)
  {
    var vault := params["vault"];
    if vault !in p.containers {
      return Answered(NotFound("vault", Some(vault)));
    }
    var account := FormatParam(params, "account");
    var byId: map<string, Upload> := VaultUploads(p.uploads, vault);
    var views := ListAll(byId, (id, u) => UploadEntry(account, vault, id, u, env.now), (v: UploadView) => v.multipartUploadId);
    o := Answered(Json(OK, UploadList(None, views)));
  }

  // ---- Dispatch ----

  /** handleGet: a path ending in "multipart-uploads" lists uploads, an upload id lists its
      parts, anything else is refused. */
  ghost predicate GetAnswer(o: Outcome, p: Proxy, req: Request, params: map<string, string>, env: Env)
    requires "vault" in params
    reads p, p.uploads.Values
  {
    if EndsWith(req.path, "multipart-uploads") then UploadsAnswer(o, p, params, env.now)
    else if "upload" in params then PartsAnswer(o, p, params, env.now)
    else o == Answered(BadRequest("Invalid service path"))
  }

  method HandleGet(p: Proxy, req: Request, params: map<string, string>, env: Env) returns (o: Outcome)
    requires "vault" in params
    ensures GetAnswer(o, p, req, params, env)
  {
    if EndsWith(req.path, "multipart-uploads") {
      o := ListUploads(p, params, env);
    } else if "upload" in params {
      o := ListParts(p, params, env);
    } else {
      o := Answered(BadRequest("Invalid service path"));
    }
  }

  /** handlePost: a path ending in "multipart-uploads" creates an upload, an upload id
      completes it, anything else is refused. */
  twostate predicate PostAnswer(p: Proxy, req: Request, params: map<string, string>, env: Env, o: Outcome)
    requires "vault" in params
    reads p, p.uploads.Values
  {
    && p.jobMap == old(p.jobMap)
    && if EndsWith(req.path, "multipart-uploads") then CreateAnswer(p, req, params, env, o)
       else if "upload" in params then CompleteAnswer(p, req, params, env, o)
       else o == Answered(BadRequest("Invalid service path")) && p.containers == old(p.containers) && p.uploads == old(p.uploads)
  }

  method HandlePost(p: Proxy, req: Request, params: map<string, string>, env: Env) returns (o: Outcome)
    requires "vault" in params && p.Valid()
    modifies p
    ensures p.Valid()
    ensures PostAnswer(p, req, params, env, o)
  {
    if EndsWith(req.path, "multipart-uploads") {
      o := CreateMultipart(p, req, params, env);
    } else if "upload" in params {
      o := CompleteMultipart(p, req, params, env);
    } else {
      o := Answered(BadRequest("Invalid service path"));
    }
  }

  /** A two-part upload of 1049000 bytes with 1 MiB parts: bytes 0-1048575 are part 1 and
      bytes 1048576-1048999 part 2, and the upload may then be completed with that size. */
  lemma TwoPartUpload()
    ensures CheckPart(0, 1048575, 1048576, 0) == Accept(1, 1048576)
    ensures CheckPart(1048576, 1048999, 1048576, 1) == Accept(2, 424)
    ensures CompletionError([UploadPart("h1", 1048576), UploadPart("h2", 424)], 1048576, 1049000).None?
  {
    assert JavaDiv(1048576, 1048576) == 1;
    var parts := [UploadPart("h1", 1048576), UploadPart("h2", 424)];
    assert parts[..1] == [parts[0]];
    assert Sum(parts) == 1049000;
  }
}
