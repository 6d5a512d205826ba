# glacier-proxy in Dafny

glacier-proxy is an HTTP server that speaks the Amazon Glacier wire protocol. It keeps
vaults, archives, retrieval jobs and multipart uploads in a blob store. This project models
its request handling: routing (`GlacierProxyHandler.handle`), the per-verb dispatch with its
IOException catch (`BaseRequestHandler.handleRequest`), the vault, archive, job and multipart
handlers, the shared state (`GlacierProxy`) and the helpers in `Util`. It then proves
properties of that model.

Layout (one module per source class, plus three support modules):

| file | module | models |
|---|---|---|
| base.dfy | `Options`, `Strings`, `Numbers`, `Uuids` | Java's `String.split`, `Long.parseLong`/`Integer.parseInt`, `%d`, long/int wrap-around, `/` and `%` on longs, `UUID.fromString`/`toString` |
| http.dfy | `Http` | requests, responses, escaping exceptions and the `Outcome` of one exchange |
| store.dfy | `BlobStore` | the blob-store calls the handlers make, as functions on a map of containers |
| listing.dfy | `Listings` | iteration over a hash map or a store listing, in an unspecified order |
| util.dfy | `Util` | `Util.java` |
| glacier_proxy.dfy | `GlacierProxy` | `GlacierProxy.java`; `Multipart.Upload` as a class whose `parts` grow in place |
| vault.dfy, archive.dfy, job.dfy, multipart.dfy | `Vault`, `Archive`, `Job`, `Multipart` | the four handlers |
| base_request_handler.dfy | `BaseRequestHandler` | `handleRequest` and the 405 defaults |
| router.dfy | `GlacierProxyHandler` | the version check, the path patterns and `setParameters` |

How the model is built:

- The handlers write to an `HttpExchange`. Here each one returns an `Outcome`: the first
  response sent on the exchange, and the exception that escaped, if any. Sending a second
  response raises IOException (`Http.Send`). This is how the model shows the handlers that
  answer NotFound and then carry on.
- `GlacierProxy.Proxy` is a class. Its fields are the blob store, the job index and the
  upload index. The handlers are methods that modify it. `Proxy.Valid()` says that two index
  entries never share an `Upload` object, and that every recorded job has a `Type` that
  `getAsString` reads.
- Fresh UUIDs, the clock, the store's next-page marker and which store calls fail are fields
  of an `Env` parameter.
- A map whose iteration order Java leaves open is listed by `Listings.ListAll`. It promises one
  entry per key, each computed from that key's value, in some order.

## Model

| member | source | states |
|---|---|---|
| Strings.JavaSplit | src/main/java/com/bouncestorage/glacierproxy/Util.java:48-49 | `split` on one character: a text without it is one piece; otherwise the raw pieces with only trailing empty pieces dropped |
| Strings.SplitJoin | src/main/java/com/bouncestorage/glacierproxy/GlacierProxyHandler.java:29-35 | splitting '/'-joined pieces that contain no '/' gives the pieces back, which is why the path patterns can be matched piece by piece |
| Numbers.ParseSigned | src/main/java/com/bouncestorage/glacierproxy/Multipart.java:108-109 | succeeds exactly on an optional sign followed by digits, of any script `Character.digit` reads, whose value lies in the range asked for (a long's or an int's), and yields that value; None stands for NumberFormatException |
| Numbers.DigitInBlocks | src/main/java/com/bouncestorage/glacierproxy/Multipart.java:108-109 | `Character.digit` in radix 10: a character is a digit exactly when one of the blocks of ten decimal digits holds it, and its value is its offset from that block's zero |
| Numbers.DigitInBlock | src/main/java/com/bouncestorage/glacierproxy/Multipart.java:108-109 | in the ascending block table, a character of block k has its offset from block k's zero as value |
| Numbers.NoDigitBetween | src/main/java/com/bouncestorage/glacierproxy/Multipart.java:108-109 | a character between two blocks, or below the first, is no digit |
| Numbers.AsciiDigit | src/main/java/com/bouncestorage/glacierproxy/Multipart.java:108-109 | '0' to '9' are digits with their usual values |
| Numbers.AsciiNumeral | src/main/java/com/bouncestorage/glacierproxy/Multipart.java:108-109 | an ASCII numeral has its usual decimal value |
| Numbers.SignsAreNoDigits | src/main/java/com/bouncestorage/glacierproxy/Multipart.java:108-109 | '+' and '-' are no digits, so a leading one is read as the sign |
| Numbers.ArabicIndicDigits | src/main/java/com/bouncestorage/glacierproxy/Archive.java:45 | U+0660 to U+0669 read as 0 to 9 |
| Numbers.FullwidthDigits | src/main/java/com/bouncestorage/glacierproxy/Archive.java:45 | the fullwidth digits U+FF10 to U+FF19 read as 0 to 9 |
| Numbers.SinhalaLithDigits | src/main/java/com/bouncestorage/glacierproxy/Archive.java:45 | U+0DE6 to U+0DEF, digits only since Unicode 7.0, are no digits for Java 8 |
| Numbers.LettersAreNoDigits | src/main/java/com/bouncestorage/glacierproxy/Archive.java:45 | Latin letters are no decimal digits |
| Numbers.ArabicIndicNumber | src/main/java/com/bouncestorage/glacierproxy/Job.java:291 | `parseInt` reads Arabic-Indic "٤٢" as 42 |
| Numbers.ParseFormatLong | src/main/java/com/bouncestorage/glacierproxy/Multipart.java:198 | `parseLong` reads back every long that `%d` prints |
| Numbers.Wrap64 | src/main/java/com/bouncestorage/glacierproxy/Multipart.java:114 | long arithmetic: the result is a long, congruent to the exact value modulo 2^64, and equal to it when it fits |
| Numbers.Wrap32 | src/main/java/com/bouncestorage/glacierproxy/Multipart.java:131 | the `(int)` cast: an int, congruent to the value modulo 2^32, and equal to it when it fits |
| Numbers.JavaRem | src/main/java/com/bouncestorage/glacierproxy/Multipart.java:120 | Java `%`: smaller in magnitude than the divisor, with the sign of the dividend, and `a == (a / b) * b + a % b` with Java's `/` |
| Numbers.JavaDiv | src/main/java/com/bouncestorage/glacierproxy/Multipart.java:131 | Java `/`: truncates toward zero; its magnitude is the quotient of the magnitudes, negative only when the signs differ |
| Uuids.ParseUuid | src/main/java/com/bouncestorage/glacierproxy/Job.java:78 | `UUID.fromString` succeeds exactly on 8-4-4-4-12 hex text; `toString` then gives the same text with every hex letter in lower case |
| Uuids.ParseCanonical | src/main/java/com/bouncestorage/glacierproxy/Multipart.java:293-295 | a UUID as `toString` prints it parses back to itself |
| Http.GetAsString | src/main/java/com/bouncestorage/glacierproxy/Job.java:37 | `getAsString` on a member: a primitive's text; NullPointerException for a missing member; UnsupportedOperationException for a JSON null or object; IllegalStateException for an array without exactly one element, whose single element answers otherwise; no other exception |
| BlobStore.PutBlob | src/main/java/com/bouncestorage/glacierproxy/Archive.java:66 | fails exactly on a missing container; otherwise stores the blob under its name and changes nothing else |
| BlobStore.RemoveBlob | src/main/java/com/bouncestorage/glacierproxy/Archive.java:100-101 | removes that one name from that container; a missing container or blob changes nothing |
| BlobStore.CreateContainer | src/main/java/com/bouncestorage/glacierproxy/Vault.java:65 | adds an empty container unless one of that name exists, which is left as it was |
| BlobStore.DeleteContainerIfEmpty | src/main/java/com/bouncestorage/glacierproxy/Vault.java:81 | succeeds exactly when the container is missing or empty, and then removes it; otherwise nothing changes |
| BlobStore.BlobExists | src/main/java/com/bouncestorage/glacierproxy/Job.java:56 | fails on a missing container; otherwise true exactly when the blob is there |
| BlobStore.BlobMetadata | src/main/java/com/bouncestorage/glacierproxy/Job.java:134 | fails on a missing container; otherwise the blob, or None when it is absent |
| BlobStore.EscapeChar | src/main/java/com/bouncestorage/glacierproxy/Util.java:36-37 | Gson's HTML-safe writer changes exactly the characters that need it (quote, backslash, control characters, < > & = ' and U+2028, U+2029), each into 2 to 6 characters |
| BlobStore.Escape | src/main/java/com/bouncestorage/glacierproxy/Util.java:36-37 | escaping never shortens a string and leaves one without such characters as it is |
| BlobStore.EscapedEquals | src/main/java/com/bouncestorage/glacierproxy/Util.java:36-37 | "a=b" is written as `a\u003db` |
| BlobStore.EscapeKeepsAscii | src/main/java/com/bouncestorage/glacierproxy/Util.java:36-37 | the escaped form of ASCII text is ASCII |
| BlobStore.Utf8Length | src/main/java/com/bouncestorage/glacierproxy/Util.java:39 | `getBytes` under UTF-8 gives at least one byte per character |
| BlobStore.Utf8LengthConcat | src/main/java/com/bouncestorage/glacierproxy/Util.java:39 | the byte length of a concatenation is the sum of the byte lengths |
| BlobStore.AsciiLength | src/main/java/com/bouncestorage/glacierproxy/Util.java:39 | ASCII text takes one byte per character |
| BlobStore.AsciiRecordSize | src/main/java/com/bouncestorage/glacierproxy/Util.java:34-40 | for ASCII metadata the stored blob's size is the length of its JSON text |
| BlobStore.OneEntryText | src/main/java/com/bouncestorage/glacierproxy/Util.java:36-37 | a one-entry record is written as the quoted key, a colon and the quoted value in braces |
| BlobStore.SingleEntrySize | src/main/java/com/bouncestorage/glacierproxy/Util.java:34-40 | a one-entry record takes 3 bytes plus the bytes of its two quoted strings |
| BlobStore.EscapedRecordSize | src/main/java/com/bouncestorage/glacierproxy/Util.java:34-40 | the record {"d": "a=b"} is stored as 16 bytes, the '=' escaped |
| BlobStore.EncodedRecordSize | src/main/java/com/bouncestorage/glacierproxy/Util.java:34-40 | the record {"d": "é"} is stored as 10 bytes, the 'é' unescaped and two bytes long |
| Listings.ListAll | src/main/java/com/bouncestorage/glacierproxy/Multipart.java:161-166 | the loop over a map's entries yields exactly one entry per key, each made from that key's value |
| Util.ParseQuery | src/main/java/com/bouncestorage/glacierproxy/Util.java:43-53 | a missing query gives the empty multimap; otherwise the result of putting each '&'-segment's pair in turn, or None when a segment has no '=' value |
| Util.PutSegmentsFails | src/main/java/com/bouncestorage/glacierproxy/Util.java:48-51 | parsing fails exactly when some segment has no value |
| Util.PutSegmentsKeeps | src/main/java/com/bouncestorage/glacierproxy/Util.java:48-51 | a successful parse keeps what it started from and holds every segment's pair |
| Util.PutSegmentsOnly | src/main/java/com/bouncestorage/glacierproxy/Util.java:48-51 | a successful parse holds no pair that no segment supplied |
| Util.PutSegmentsFirst | src/main/java/com/bouncestorage/glacierproxy/Util.java:43-53 | the first value read back for a key is the value of the first segment with that key |
| Util.ArnNamesVault | src/main/java/com/bouncestorage/glacierproxy/Util.java:114-116 | for one account the ARN determines the vault: distinct vaults have distinct ARNs |
| Util.MetadataBlobNames | src/main/java/com/bouncestorage/glacierproxy/Util.java:126-132 | a name is a metadata blob exactly when it is `getMetadataBlobName` of some name |
| Util.ArchiveIdIsNotMetadata | src/main/java/com/bouncestorage/glacierproxy/Util.java:130-132 | a UUID archive id is never taken for a metadata blob |
| Util.BadRequest | src/main/java/com/bouncestorage/glacierproxy/Util.java:89-95 | 400, JSON, code "BadRequest", the message, type "client" |
| Util.ServerError | src/main/java/com/bouncestorage/glacierproxy/Util.java:97-103 | 503, JSON, code "ServiceUnavailableException", the message, type "server" |
| Util.NotFound | src/main/java/com/bouncestorage/glacierproxy/Util.java:105-112 | 404, JSON, "The {type} was not found: {id}", with "null" for a missing id |
| GlacierProxy.Upload.constructor | src/main/java/com/bouncestorage/glacierproxy/Multipart.java:321-326 | a new upload has the given part size and description and no parts |
| GlacierProxy.Proxy.GetJob | src/main/java/com/bouncestorage/glacierproxy/GlacierProxy.java:48-56 | None when the vault has no job map or no job under the id; otherwise the stored job |
| GlacierProxy.Proxy.AddJob | src/main/java/com/bouncestorage/glacierproxy/GlacierProxy.java:58-63 | afterwards the job is found under (vault, id); every other lookup answers as before; other vaults' maps are untouched |
| GlacierProxy.Proxy.GetVaultJobs | src/main/java/com/bouncestorage/glacierproxy/Job.java:191 | holds exactly the jobs `getJob` finds in the vault |
| GlacierProxy.Proxy.GetUpload | src/main/java/com/bouncestorage/glacierproxy/Multipart.java:93 | the upload indexed under (vault, id), or None |
| GlacierProxy.Proxy.CreateMultipartUpload | src/main/java/com/bouncestorage/glacierproxy/Multipart.java:292 | the new upload is found under (vault, id); every other lookup answers as before |
| GlacierProxy.Proxy.CompleteUpload | src/main/java/com/bouncestorage/glacierproxy/Multipart.java:257 | the upload leaves the index; every other lookup answers as before |
| Vault.ListVaults | src/main/java/com/bouncestorage/glacierproxy/Vault.java:40-50 | one entry per container, each with size -1 and 0 archives |
| Vault.Describe | src/main/java/com/bouncestorage/glacierproxy/Vault.java:91-111 | NotFound for a missing vault; otherwise 200 with its name, ARN, size -1 and creation date |
| Vault.HandleGet | src/main/java/com/bouncestorage/glacierproxy/Vault.java:26-54 | describes a named vault; otherwise lists every container, with the store's marker |
| Vault.HandlePut | src/main/java/com/bouncestorage/glacierproxy/Vault.java:57-70 | BadRequest without a vault name; otherwise the container exists and the answer is 201 with `/{account}/vaults/{vault}` |
| Vault.HandleDelete | src/main/java/com/bouncestorage/glacierproxy/Vault.java:73-89 | 204 and the vault gone when it was empty; BadRequest with nothing changed when it holds blobs |
| Vault.VaultLifecycle | src/main/java/com/bouncestorage/glacierproxy/Vault.java:57-97 | a created vault describes as 200; creating twice equals creating once; a new vault can be deleted at once and is then NotFound |
| Vault.DeleteKeepsArchives | src/main/java/com/bouncestorage/glacierproxy/Vault.java:80-86 | deleting a vault that holds an archive fails and changes nothing |
| Archive.MetadataEntries | src/main/java/com/bouncestorage/glacierproxy/Archive.java:47-56 | the metadata record holds the description exactly when the request has one, then the tree hash, then the content hash |
| Archive.RemoveArchive | src/main/java/com/bouncestorage/glacierproxy/Archive.java:74-75 | both the archive blob and its metadata blob leave the vault; nothing else changes |
| Archive.WithArchive | src/main/java/com/bouncestorage/glacierproxy/Archive.java:66-67 | the vault holds the payload and the metadata record; nothing else changes |
| Archive.PutsThenCleanup | src/main/java/com/bouncestorage/glacierproxy/Archive.java:65-77 | after the two puts, either both blobs are stored, or the clean-up gives the same store as removing both names from the original |
| Archive.WriteArchive | src/main/java/com/bouncestorage/glacierproxy/Archive.java:65-77 | succeeds exactly when neither put is refused; the store then holds both blobs, otherwise neither name |
| Archive.HandlePost | src/main/java/com/bouncestorage/glacierproxy/Archive.java:34-87 | BadRequest without both hashes; NumberFormatException on a bad length; NotFound for a missing vault; 503 and both names removed when a put fails; otherwise 201 with the id, the tree hash and `/{account}/{vault}/{id}` |
| Archive.HandleDelete | src/main/java/com/bouncestorage/glacierproxy/Archive.java:90-104 | BadRequest without an archive id; otherwise 204 and both blobs removed, whether or not they existed |
| Archive.DeleteIdempotent | src/main/java/com/bouncestorage/glacierproxy/Archive.java:100-101 | deleting an archive twice leaves the store as deleting it once |
| Archive.DeleteUndoesUpload | src/main/java/com/bouncestorage/glacierproxy/Archive.java:66-101 | deleting a newly uploaded archive restores the store as it was before the upload |
| Archive.ArchiveAndMetadataDiffer | src/main/java/com/bouncestorage/glacierproxy/Archive.java:59-67 | an upload writes two distinct blobs, one a metadata blob and one not |
| Job.HandlePost | src/main/java/com/bouncestorage/glacierproxy/Job.java:34-69 | a missing body raises IllegalStateException; a Type `getAsString` cannot read raises what it raises; an unknown Type is BadRequest; an inventory job is recorded even for a missing vault, whose 404 is then followed by an IOException; an archive job on a missing vault answers 404 and then raises; an archive job needs an ArchiveId that reads as the name of a stored blob (else the exception `getAsString` raises, or 404); an accepted job is recorded under a fresh id with both dates set to the current time (`Stamped`) and answered 202; only an accepted job changes the job index, and the store and uploads never change |
| Job.Stamped | src/main/java/com/bouncestorage/glacierproxy/Job.java:63 | the recorded job is the submitted one with CreationDate and CompletionDate both the time of acceptance, every other member kept |
| Job.LocationNamesJob | src/main/java/com/bouncestorage/glacierproxy/Job.java:63-66 | the 202's job id header parses back to the recorded id, and the Location ends with it |
| Job.ReportedParameters | src/main/java/com/bouncestorage/glacierproxy/Job.java:152-156 | the stored inventory parameters with "Format" set to "JSON" and every other member kept |
| Job.DescribeJob | src/main/java/com/bouncestorage/glacierproxy/Job.java:103-158 | a Type `getAsString` cannot read raises what it raises, one it reads but does not know is BadRequest "Invalid service path"; an archive job raises for an unreadable ArchiveId, ContainerNotFound for a missing vault and NullPointerException for a missing archive; otherwise 200 copying the Type element as Action and the ArchiveId element, with the archive's size and range or the inventory parameters, the two dates swapped, the job id, ARN and "Succeeded" |
| Job.RecordedJobDescribes | src/main/java/com/bouncestorage/glacierproxy/Job.java:103-125 | a job as recorded describes as 200, succeeded, under its own id, with both dates the time of acceptance |
| Job.ArrayTypedJob | src/main/java/com/bouncestorage/glacierproxy/Job.java:106-118 | a Type given as a one-element array passes the type test and is copied as the array; an empty array raises IllegalStateException |
| Job.DescribedRangeEndsBeforeSize | src/main/java/com/bouncestorage/glacierproxy/Job.java:139 | for an archive of n bytes the described range is "0-" followed by n-1 |
| Job.CheckOptions | src/main/java/com/bouncestorage/glacierproxy/Job.java:277-307 | accepts exactly when completed, limit and statuscode are all valid; otherwise the message of the first check that fails, in source order |
| Job.NewListJobsOptions | src/main/java/com/bouncestorage/glacierproxy/Job.java:277-307 | the field-by-field constructor computes `CheckOptions` |
| Job.ListJobs | src/main/java/com/bouncestorage/glacierproxy/Job.java:160-226 | IndexOutOfBounds for a query segment without '='; BadRequest carrying the first failing option's message; an empty list with a null marker when the options rule out every job; otherwise exactly one listed entry per recorded job of the vault |
| Job.RetrieveInventory | src/main/java/com/bouncestorage/glacierproxy/Job.java:228-248 | one item per blob of the store's listing of the vault, each with its name and size; ContainerNotFound for a missing vault |
| Job.InventoryShowsMetadataBlobs | src/main/java/com/bouncestorage/glacierproxy/Job.java:237-243 | an archive and its metadata blob both appear in the inventory |
| Job.HandleGet | src/main/java/com/bouncestorage/glacierproxy/Job.java:72-101 | IllegalArgumentException for a malformed job id; NotFound for an unknown job; output is always the inventory; describe, list, or BadRequest by path |
| Multipart.MatchContentRange | src/main/java/com/bouncestorage/glacierproxy/Multipart.java:27 | a match yields two digit strings that rebuild the header exactly |
| Multipart.MatchRangeHeader | src/main/java/com/bouncestorage/glacierproxy/Multipart.java:27 | every header of the pattern's form matches, with its own numbers |
| Multipart.CheckPart | src/main/java/com/bouncestorage/glacierproxy/Multipart.java:114-131 | accepts exactly when the wrapped length fits the part size, the size is non-zero, the start is aligned and there are at most 10000 parts, with that length as the part's size; otherwise "Part size must be smaller than {size}", ArithmeticException for a zero part size, "Starting part range does not align {start}" or "Cannot have more than 10000 parts", in that order |
| Multipart.PartNumberLocatesPart | src/main/java/com/bouncestorage/glacierproxy/Multipart.java:130-131 | an accepted, non-reversed part is numbered start/partSize+1, begins at (number-1)*partSize and is 1 to partSize bytes long |
| Multipart.FirstPartIsOne | src/main/java/com/bouncestorage/glacierproxy/Multipart.java:130-131 | the part starting at byte 0 is part 1 |
| Multipart.ReversedRangeIsAccepted | src/main/java/com/bouncestorage/glacierproxy/Multipart.java:114-115 | a reversed range is accepted with a length of zero or less |
| Multipart.PartCapAdmitsOneMore | src/main/java/com/bouncestorage/glacierproxy/Multipart.java:125-128 | with 10000 parts held a further part is accepted; from 10001 on every part is refused |
| Multipart.ReceivePart | src/main/java/com/bouncestorage/glacierproxy/Multipart.java:98-145 | appends exactly when the range header is there, matches, both numbers parse, `CheckPart` accepts and the store takes the part, and then appends the tree hash with the wrapped length and answers 204 echoing the hash; otherwise NullPointerException without the header, "Invalid content range", "Invalid range", `CheckPart`'s message or exception, or 503 "Failed to save the part" |
| Multipart.FirstMissing | src/main/java/com/bouncestorage/glacierproxy/Multipart.java:85-90 | None exactly when every required header is present; otherwise a missing one with every header listed before it present, that is the first the loop stops at |
| Multipart.HandlePut | src/main/java/com/bouncestorage/glacierproxy/Multipart.java:79-146 | NotFound without an upload id, "Header {h} not found" for the first missing header, IllegalArgumentException for a malformed id and NotFound for an unknown upload, each changing nothing; otherwise `ReceivePart`'s answer, an accepted part appended to that upload alone |
| Multipart.PartRanges | src/main/java/com/bouncestorage/glacierproxy/Multipart.java:194-201 | one entry per part; what each entry covers is stated by `RangesAreContiguous` |
| Multipart.RangesAreContiguous | src/main/java/com/bouncestorage/glacierproxy/Multipart.java:194-199 | without overflow, part i covers bytes Sum(first i parts) to Sum(first i+1 parts)-1 |
| Multipart.RangesOf | src/main/java/com/bouncestorage/glacierproxy/Multipart.java:194-201 | the running-start loop computes `PartRanges` |
| Multipart.ListParts | src/main/java/com/bouncestorage/glacierproxy/Multipart.java:172-205 | NotFound for a malformed id; NotFound followed by a NullPointerException for an unknown upload; otherwise 200 with the upload's description, the time of the listing as its CreationDate, a null Marker, id, part size, ARN and `PartRanges` of its parts in the order received |
| Multipart.FirstShortPart | src/main/java/com/bouncestorage/glacierproxy/Multipart.java:236-243 | None exactly when every part but the last has the part size; otherwise such a part |
| Multipart.FirstShortIsFirst | src/main/java/com/bouncestorage/glacierproxy/Multipart.java:236-243 | the part the completion loop stops at is the first short one that is not last |
| Multipart.CompletionError | src/main/java/com/bouncestorage/glacierproxy/Multipart.java:235-249 | completion may go ahead exactly when every part but the last is full and the wrapped total equals the declared size |
| Multipart.CompletedSizeIsAligned | src/main/java/com/bouncestorage/glacierproxy/Multipart.java:235-249 | a completable upload without overflow declares (n-1)*partSize plus the last part's length |
| Multipart.CheckCompletion | src/main/java/com/bouncestorage/glacierproxy/Multipart.java:235-249 | the summing loop computes `CompletionError` |
| Multipart.WithAssembled | src/main/java/com/bouncestorage/glacierproxy/Multipart.java:250-251 | the vault gains the assembled archive blob; nothing else changes |
| Multipart.CompleteMultipart | src/main/java/com/bouncestorage/glacierproxy/Multipart.java:207-262 | NotFound for a malformed or unknown upload; BadRequest for a missing header, an unparsable size or a `CompletionError`; 503 when the store refuses; ContainerNotFound for a vault that is gone; every refusal changes nothing; on success the assembled blob is stored under the upload's archive id, the upload alone leaves the index, and the answer is 201 with the archive id |
| Multipart.CreateMultipart | src/main/java/com/bouncestorage/glacierproxy/Multipart.java:264-297 | NotFound for a missing vault, BadRequest for a missing or unparsable part size, 503 when the store refuses, each changing nothing; otherwise a fresh upload with no parts, the parsed part size, the description if given, and a fresh archive id is indexed under the new upload id, no other index entry changes, and the answer is 201 with that id and its Location |
| Multipart.Abort | src/main/java/com/bouncestorage/glacierproxy/Multipart.java:62-76 | NotFound without an id or for an unknown upload; IllegalArgumentException for a malformed id; otherwise 204 |
| Multipart.VaultUploads | src/main/java/com/bouncestorage/glacierproxy/Multipart.java:159 | exactly the vault's uploads, by upload id |
| Multipart.ListUploads | src/main/java/com/bouncestorage/glacierproxy/Multipart.java:148-170 | NotFound for a missing vault; otherwise one entry per upload of the vault, dated with the time of the listing, with a null marker |
| Multipart.HandleGet | src/main/java/com/bouncestorage/glacierproxy/Multipart.java:39-48 | a path ending in "multipart-uploads" gets the vault's upload list; otherwise an upload id gets that upload's parts; otherwise BadRequest |
| Multipart.HandlePost | src/main/java/com/bouncestorage/glacierproxy/Multipart.java:51-59 | a path ending in "multipart-uploads" creates an upload as `CreateMultipart` states; otherwise an upload id completes it as `CompleteMultipart` states; otherwise BadRequest with nothing changed; the job index never changes |
| Multipart.TwoPartUpload | src/main/java/com/bouncestorage/glacierproxy/Multipart.java:114-249 | a 1049000-byte upload in 1 MiB parts: parts 1 and 2 are accepted, and completion with that size goes ahead |
| BaseRequestHandler.CatchIo | src/main/java/com/bouncestorage/BaseRequestHandler.java:36-42 | no IOException escapes; with nothing sent yet it becomes 500; an earlier answer stands |
| BaseRequestHandler.HandleRequest | src/main/java/com/bouncestorage/BaseRequestHandler.java:17-58 | IllegalArgumentException for other verbs and 405 for verbs the handler does not override, each changing nothing; otherwise the method the handler and verb select answers as `Dispatched` states, and the outcome is its answer with an escaping IOException turned into 500 (`CatchIo`) |
| BaseRequestHandler.Dispatch | src/main/java/com/bouncestorage/BaseRequestHandler.java:20-32 | the verb reaches the handler class's own method: `Dispatched` states each handler's answer and what it may change |
| BaseRequestHandler.DispatchJob | src/main/java/com/bouncestorage/BaseRequestHandler.java:20-26 | GET is the job handler's handleGet and changes nothing; POST is its handlePost, which leaves the uploads |
| BaseRequestHandler.DispatchArchive | src/main/java/com/bouncestorage/BaseRequestHandler.java:24-32 | POST is the archive handler's handlePost, DELETE its handleDelete; neither touches the uploads |
| BaseRequestHandler.DispatchMultipart | src/main/java/com/bouncestorage/BaseRequestHandler.java:20-32 | GET and DELETE (abort) answer without changing anything; POST creates or completes; PUT adds a part and leaves the store and the jobs |
| BaseRequestHandler.QueryMultipart | src/main/java/com/bouncestorage/BaseRequestHandler.java:20-32 | GET and DELETE of the multipart handler, which change nothing |
| BaseRequestHandler.UpdateMultipart | src/main/java/com/bouncestorage/BaseRequestHandler.java:24-29 | POST and PUT of the multipart handler |
| BaseRequestHandler.DispatchVault | src/main/java/com/bouncestorage/BaseRequestHandler.java:20-32 | GET describes or lists and changes nothing; PUT creates and DELETE deletes the vault, neither touching the uploads |
| BaseRequestHandler.SecondAnswerIsDropped | src/main/java/com/bouncestorage/BaseRequestHandler.java:36-42 | when the 202 after a 404 fails, the client keeps the 404 |
| GlacierProxyHandler.MatchJobs | src/main/java/com/bouncestorage/glacierproxy/GlacierProxyHandler.java:29-30 | a match has the account and vault groups |
| GlacierProxyHandler.MatchCollection | src/main/java/com/bouncestorage/glacierproxy/GlacierProxyHandler.java:31-34 | a match has the account and vault groups |
| GlacierProxyHandler.MatchVaults | src/main/java/com/bouncestorage/glacierproxy/GlacierProxyHandler.java:35 | a match has the account group |
| GlacierProxyHandler.RouteOf | src/main/java/com/bouncestorage/glacierproxy/GlacierProxyHandler.java:54-80 | a job, archive or multipart route always carries a vault name |
| GlacierProxyHandler.SetParameters | src/main/java/com/bouncestorage/glacierproxy/GlacierProxyHandler.java:87-93 | copies exactly the listed groups that matched, with their values: the map `Captures` describes |
| GlacierProxyHandler.TagOutcome | src/main/java/com/bouncestorage/glacierproxy/GlacierProxyHandler.java:49 | every routed answer carries x-amzn-RequestId, and its status and body are kept |
| GlacierProxyHandler.Handle | src/main/java/com/bouncestorage/glacierproxy/GlacierProxyHandler.java:40-85 | NullPointerException without a version header; BadRequest for the wrong version; "Unknown request" when no pattern matches; otherwise the route's captured groups go to its handler, which answers as `Dispatched` states, and the outcome is that answer with IOException caught and the request id added |
| GlacierProxyHandler.PatternsAreDisjoint | src/main/java/com/bouncestorage/glacierproxy/GlacierProxyHandler.java:29-35 | at most one pattern matches any path |
| GlacierProxyHandler.JobLocationRoutes | src/main/java/com/bouncestorage/glacierproxy/Job.java:65-66 | a job's Location routes back to the job handler with that account, vault and job id |
| GlacierProxyHandler.JobPathRoutes | src/main/java/com/bouncestorage/glacierproxy/GlacierProxyHandler.java:29-30 | a path of a job's pieces reaches the job handler |
| GlacierProxyHandler.VaultLocationRoutes | src/main/java/com/bouncestorage/glacierproxy/Vault.java:67-68 | a vault's Location routes to the vault handler with that account and vault |
| GlacierProxyHandler.MultipartLocationMatchesNothing | src/main/java/com/bouncestorage/glacierproxy/Util.java:118-120 | an upload's Location, lacking its leading '/', matches no pattern |
| GlacierProxyHandler.SlashedMultipartLocationRoutes | src/main/java/com/bouncestorage/glacierproxy/Util.java:118-120 | with the '/' added it reaches the multipart handler with that upload id |
| GlacierProxyHandler.UploadPathRoutes | src/main/java/com/bouncestorage/glacierproxy/GlacierProxyHandler.java:33-34 | a path of an upload's pieces reaches the multipart handler |
| GlacierProxyHandler.AccountListsVaults | src/main/java/com/bouncestorage/glacierproxy/GlacierProxyHandler.java:35 | "/{account}/vaults" reaches the vault handler with only an account |
| GlacierProxyHandler.TestPathsListVaults | src/test/java/com/bouncestorage/GlacierProxyHandlerTest.java:10-11 | the two paths of the test match the vaults pattern |

## Left out

- Request and response bodies as byte streams: an uploaded archive or part is its length, and retrieving an archive's bytes is not modelled.
- JSON parsing and printing: a job body is a `JobDoc` datatype, and a response body is a datatype instead of JSON text. `Util.sendJSON` (Util.java:83-86) declares the text's length in UTF-16 units as the Content-Length but writes its UTF-8 bytes. A JSON answer holding non-ASCII text therefore raises an IOException after the status is sent; the model delivers the body.
- Timestamps: `getTimeStamp` and the store's dates are opaque strings taken from `Env`.
- An upload's CreationDate is `getTimeStamp` of its blob metadata's date (Multipart.java:189, 330). That metadata is built by `blobBuilder(archiveId).build()` with no date (Multipart.java:283-284), and the store is taken to keep it so. The date is then `getTimeStamp(null)`: the time of each listing, `Env.now`.
- Logging, the server's start and stop, and concurrency. `ConcurrentHashMap` is modelled as a plain map.
- Hash checking: the source does none.
- Job.RetrieveInventory: lists every blob of the vault. The source calls `list(vault)` once, with no marker (Job.java:236-237), so only the store's first page of the listing is inventoried.
- The HTTP server's own answer to an exception that escapes a handler is not modelled: an Outcome records the exception, with no response. For a NumberFormatException the server sends 400 "NumberFormatException thrown"; a malformed UUID is recorded as IllegalArgument, of which NumberFormatException is a subclass.
- Uuids.ParseUuid: accepts only the 8-4-4-4-12 form. Java 8's `UUID.fromString` accepts any five dash-separated groups of hex digits, of any length: a longer group has its excess bits OR-ed into the others, and a trailing '-' is accepted.
- Header names are matched exactly. The HTTP server's case normalisation of header names is not modelled.
- handleRetrieveArchiveJob (Job.java:250-265) is not modelled. Its only caller never reaches it, because the Type test compares a JSON element with a string.
- A non-object `InventoryRetrievalParameters` (ClassCastException) is not modelled.
- The store's own record of multipart parts (`uploadMultipartPart`, `listMultipartUpload`) is not modelled. Completion stores one blob whose length is the declared size. Because completion checks it first, that size equals the wrapped sum of the proxy's parts.
- `abortMultipartUpload` on the store is not modelled: Abort changes no state of the model.
- The glacierproxy package's own `BaseRequestHandler` is not modelled. Its handlers are taken to be dispatched as by `src/main/java/com/bouncestorage/BaseRequestHandler.java`.
- `GlacierProxy.addJob(vault, json)` (two arguments), `getVaultJobs`, `getUpload`, `getUploads`, `createMultipartUpload`, `completeUpload` and `getMultipartHandler` are not modelled from their own code. They are taken to work like `addJob`/`getJob`, as maps keyed by vault and UUID.
- Completion on a vault that vanished after the upload began raises ContainerNotFound. This is an assumption about the store.
- `Util.getOptions` and `Util.getMetadata` are not called by the modelled handlers.
- Job.Stamped: the two-argument `addJob` that records a job is not modelled from its own code. It is taken to set CreationDate and CompletionDate to the time of acceptance and keep every other member. A job is answered as complete as soon as it is submitted (202 at Job.java:63-68), and describe reads both dates back (Job.java:119-120).
- GlacierProxyHandler.Handle: takes the route's parameters from `Captures`, the map `SetParameters` is proved to build, instead of calling the method.
- `String.getBytes()` uses the platform's default charset. It is modelled as UTF-8.
- A header with several values is one value here. handlePut echoes the whole value list of the tree-hash header; the model echoes the one value.
- Numbers.DigitInBlocks: the digits are those of Java 8 (Unicode 6.2). Later JDKs know more scripts' digits. Characters outside the Basic Multilingual Plane are no digits here; in Java they are surrogate pairs, which are no digits either.

## Behaviour of the code worth knowing

The model follows the code as written. Where the code does something surprising, or differs
from what the protocol leads one to expect, the model keeps the code's behaviour and a
contract or lemma states it:

- Job submission on a missing vault answers 404 but does not return (Job.java:45-48). An
  inventory job is then recorded anyway, and its 202 raises IOException, which
  `handleRequest` swallows (`Job.HandlePost`, `BaseRequestHandler.SecondAnswerIsDropped`). An
  archive job then fails with ContainerNotFound.
- Listing parts of an unknown upload answers 404 and then dereferences null (Multipart.java:184-188).
- Describe reports the stored CreationDate as CompletionDate and the reverse (Job.java:119-120).
  A recorded job has both dates equal, so the swap does not show (`Job.RecordedJobDescribes`).
- The part cap is tested before the part is added (Multipart.java:125), so a 10001st part is
  accepted (`Multipart.PartCapAdmitsOneMore`).
- `Long.parseLong` and `Integer.parseInt` read the decimal digits of every script, so a
  Content-Length, part size, archive size or limit may be written in Arabic-Indic or fullwidth
  digits (`Numbers.ArabicIndicNumber`). The Content-Range pattern takes `[0-9]` only.
- `getAsString` reads a one-element array as its element, so a job whose Type is
  `["inventory-retrieval"]` is accepted, and describe copies the array as Action (`Job.ArrayTypedJob`).
- The Type tests in the job list and in job output compare a JSON element with a string
  (Job.java:85, 203), so they never hold. Output is always the inventory, and every listed job
  has Action "InventoryRetriveal" (misspelt in the source).
- The inventory lists the blobs of the vault, metadata blobs included (`Job.InventoryShowsMetadataBlobs`).
- Abort answers 204 but leaves the upload in the index. The upload can still be listed and completed.
- A part PUT appends to the upload's list. It does not replace the entry for the same part
  number, so a re-sent part counts twice at completion.
- A reversed Content-Range is accepted with a length of zero or less (`Multipart.ReversedRangeIsAccepted`).
  Lengths are long arithmetic, so "bytes 0-9223372036854775807/*" wraps to a negative
  length and is accepted too.
- The Location of a created upload has no leading '/' (Util.java:118-120), so it does not route
  (`GlacierProxyHandler.MultipartLocationMatchesNothing`). The Location of a completed archive
  also lacks the '/', and it names the upload id rather than the archive id (Multipart.java:259-260).
- Server errors are 503, not 500. Only an IOException becomes 500. Other exceptions
  (IllegalArgumentException for a malformed UUID or an unknown verb, NullPointerException,
  ContainerNotFoundException) escape the handler. The JDK's HTTP server answers a
  NumberFormatException with 400 "NumberFormatException thrown": that covers Archive's
  Content-Length parse and a UUID group that is not hex. Every other exception closes the
  connection and leaves the client with no answer.
- A missing version header dereferences null (GlacierProxyHandler.java:41). A wrong version is
  answered before the request id header is set.
