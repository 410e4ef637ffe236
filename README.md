# Revision checker model

A Dafny model of `CheckJagexVersion`, the timer-triggered Azure Function of the Microbot
revision checker. Each run does the following:

1. Fetch the launcher's metadata token.
2. Decode the token's payload. The code uses no JWT library: it splits on '.', restores the
   '=' padding and base64-decodes.
3. Read five strings from the JSON document.
4. Compare the production and staging ids with the state kept in a blob.
5. Post a Discord notice for each environment whose id changed, production first.
6. When anything was posted, overwrite the blob with the new ids.

One catch-all around the whole body logs any exception and swallows it.

Modules:

- `Wrappers`: `Option` (also a C# reference that may be null) and `Result` (a value or the
  exception that stopped the computation).
- `Base64`: `Convert.FromBase64String` as .NET implements it:
  - whitespace is skipped;
  - the length must be a whole number of quanta;
  - '=' may stand only at the end;
  - unused low bits are ignored.

  Beside it is the RFC 4648 encoder that the round-trip lemmas are stated against.
- `Jwt`: `String.Split`, the padding arithmetic, and `DecodeJwtPayload` up to the decoded bytes.
- `Json`: a parsed document and the two accessors `GetProperty` and `GetString`, with their
  duplicate-name and null behaviour.
- `RevisionChecker`: the run.
  - The function `Outcome` specifies a run. It returns the ordered trace of webhook posts and
    blob uploads, and the line the run logs.
  - The class `World` holds the blob and the effect log.
  - The method `Run` (split into `Run` and `NotifyAndSave` where the body reaches line 53) is
    proved to do exactly what `Outcome` says.

What can fail is a parameter:

- the metadata response, `None` when `GetStringAsync` throws;
- the JSON parser, `None` when `JsonDocument.Parse` throws;
- a `Faults` record saying whether the blob reads throw, which channels' `PostAsync` throws,
  and whether `UploadAsync` throws.

Two behaviours of the code that a reader might not expect, both modelled as written:

- A JSON `null` at one of the five paths is not an error. `GetString` returns null, and the
  `!` operator does not check at run time. The model therefore uses nullable strings, and a
  null is written as nothing in a notice.
- Notifications are not isolated. A throwing `PostAsync` jumps to the outer catch, so the
  remaining notice is not sent and the blob is not written (`ProductionPostFailureStopsRun`,
  `FailedUploadRepeatsNotices`).

## Model

| member | source | states |
|---|---|---|
| Base64.CharOf | Microbot.RevisionChecker/CheckJagexVersion.cs:100 | an alphabet character is never '=', whitespace or '.' |
| Base64.ValueOf | Microbot.RevisionChecker/CheckJagexVersion.cs:100 | a character the decoder accepts as a digit maps back to itself under the alphabet |
| Base64.ValueOfCharOf | Microbot.RevisionChecker/CheckJagexVersion.cs:100 | the 64 alphabet characters are distinct: value to character to value is the identity |
| Base64.RemoveWhitespace | Microbot.RevisionChecker/CheckJagexVersion.cs:100 | the decoder's view of the input: no whitespace is left, a character is in the result iff it is in the input and not whitespace, and an input without whitespace is left as it is |
| Base64.RemoveWhitespaceChar | Microbot.RevisionChecker/CheckJagexVersion.cs:100 | a single whitespace character is dropped and any other single character is kept |
| Base64.RemoveWhitespaceConcat | Microbot.RevisionChecker/CheckJagexVersion.cs:100 | removal distributes over concatenation; with RemoveWhitespaceChar this fixes the result as the input's non-whitespace characters in their order and number |
| Base64.Decode | Microbot.RevisionChecker/CheckJagexVersion.cs:100 | FromBase64String fails with a length error when the input, whitespace removed, is not a multiple of 4 long |
| Base64.DecodeQuantum | Microbot.RevisionChecker/CheckJagexVersion.cs:100 | a quantum decodes only with its first two characters in the alphabet, gives three bytes less one per trailing '=', and gives three bytes unless it is the last quantum |
| Base64.DecodeBlocks | Microbot.RevisionChecker/CheckJagexVersion.cs:100 | no contract of its own: DecodedLength, BlocksRoundTrip and BlocksRejectForeign state its length, its inverse and its rejection of foreign characters |
| Base64.DecodedLength | Microbot.RevisionChecker/CheckJagexVersion.cs:100 | input that decodes is a whole number of quanta and gives three bytes per quantum less one per '=' |
| Base64.Encode | Microbot.RevisionChecker/CheckJagexVersion.cs:100 | the encoding uses only alphabet characters and '=' and is non-empty for non-empty input |
| Base64.EncodeLength | Microbot.RevisionChecker/CheckJagexVersion.cs:100 | an encoding is a whole number of 4-character quanta |
| Base64.EncodeShape | Microbot.RevisionChecker/CheckJagexVersion.cs:100 | exactly the last 0, 1 or 2 characters of an encoding are '=' |
| Base64.DecodeEncode | Microbot.RevisionChecker/CheckJagexVersion.cs:100 | round trip: decoding the encoding of any bytes gives them back |
| Base64.BlocksRoundTrip | Microbot.RevisionChecker/CheckJagexVersion.cs:100 | quantum by quantum, the decoder inverts the encoder |
| Base64.ForeignCharacterRejected | Microbot.RevisionChecker/CheckJagexVersion.cs:100 | a character outside the alphabet, '=' and whitespace makes decoding fail wherever it stands |
| Base64.ThreePadRejected | Microbot.RevisionChecker/CheckJagexVersion.cs:100 | a final quantum with three '=' is rejected |
| Base64.Rfc4648Fo | Microbot.RevisionChecker/CheckJagexVersion.cs:100 | test vector "fo" / "Zm8=" of RFC 4648 section 10, in both directions |
| Base64.Rfc4648Foob | Microbot.RevisionChecker/CheckJagexVersion.cs:100 | test vector "foob" / "Zm9vYg==" of RFC 4648 section 10, in both directions |
| Jwt.Split | Microbot.RevisionChecker/CheckJagexVersion.cs:97 | String.Split gives at least one part and no part contains the separator |
| Jwt.JoinSplit | Microbot.RevisionChecker/CheckJagexVersion.cs:97 | splitting loses nothing: joining the parts with the separator gives the string back |
| Jwt.SplitCount | Microbot.RevisionChecker/CheckJagexVersion.cs:97 | there is a single part exactly when the separator does not occur, so index 1 exists iff the token has a '.' |
| Jwt.SplitSecond | Microbot.RevisionChecker/CheckJagexVersion.cs:97 | part 1 is the text between the first and the second separator |
| Jwt.SplitAfter | Microbot.RevisionChecker/CheckJagexVersion.cs:97 | a separator-free prefix before a separator is the first part and the rest splits on |
| Jwt.Pad | Microbot.RevisionChecker/CheckJagexVersion.cs:98-99 | the padded segment is a multiple of 4 long, keeps the segment as its prefix, adds 0 to 3 '=' and nothing else, and adds nothing when the length is already a multiple of 4 |
| Jwt.StripPadding | Microbot.RevisionChecker/CheckJagexVersion.cs:98-99 | producer side of the padding: a prefix of the input with every trailing '=' removed |
| Jwt.StripExactly | Microbot.RevisionChecker/CheckJagexVersion.cs:98-99 | stripping a string that ends in exactly k '=' removes those k characters |
| Jwt.PadRestoresEncoding | Microbot.RevisionChecker/CheckJagexVersion.cs:98-99 | padding restores exactly what stripping removed from a base64 encoding |
| Jwt.PadRestores | Microbot.RevisionChecker/CheckJagexVersion.cs:98-99 | a whole number of quanta ending in at most two '=' is recovered by padding its unpadded prefix |
| Jwt.PayloadSegment | Microbot.RevisionChecker/CheckJagexVersion.cs:97 | the segment read fails (index 1 out of range) exactly when the token has no '.' |
| Jwt.DecodeSegment | Microbot.RevisionChecker/CheckJagexVersion.cs:98-100 | padding then decoding fails exactly when FromBase64String rejects the padded segment, and never as a missing payload |
| Jwt.DecodePayload | Microbot.RevisionChecker/CheckJagexVersion.cs:95-101 | DecodeJwtPayload fails with the missing-payload error exactly when the token has no '.' |
| Jwt.PayloadBetweenDots | Microbot.RevisionChecker/CheckJagexVersion.cs:97-100 | the decoded segment of header.payload... is exactly payload |
| Jwt.SegmentRoundTrip | Microbot.RevisionChecker/CheckJagexVersion.cs:98-100 | an encoding with its padding stripped decodes to the bytes it encodes |
| Jwt.PaddedSegmentRoundTrip | Microbot.RevisionChecker/CheckJagexVersion.cs:98-100 | an encoding with its padding kept decodes to the bytes it encodes |
| Jwt.TokenRoundTrip | Microbot.RevisionChecker/CheckJagexVersion.cs:95-101 | round trip: encode any bytes, strip '=', put them between a header and a signature, and decoding the token gives the bytes back |
| Jwt.PaddedTokenRoundTrip | Microbot.RevisionChecker/CheckJagexVersion.cs:95-101 | the same round trip with the padding left in |
| Jwt.NoDotInEncoding | Microbot.RevisionChecker/CheckJagexVersion.cs:97 | no base64 encoding contains '.', so an encoded payload cannot shift the split |
| Jwt.UrlSafeCharacterRejected | Microbot.RevisionChecker/CheckJagexVersion.cs:95-101 | a payload segment holding the URL-safe '-' or '_' makes DecodeJwtPayload fail |
| Jwt.LengthOneMoreThanQuantaRejected | Microbot.RevisionChecker/CheckJagexVersion.cs:95-101 | a whitespace-free segment of length 1 mod 4 never decodes, since the padding brings it to three '=' |
| Json.LastNamed | Microbot.RevisionChecker/CheckJagexVersion.cs:33-39 | the value found is that of the last member with the name, and nothing is found iff no member has it |
| Json.LastNamedIgnoresLater | Microbot.RevisionChecker/CheckJagexVersion.cs:33-39 | members after the last match do not change what is found |
| Json.LastDuplicateWins | Microbot.RevisionChecker/CheckJagexVersion.cs:33-39 | a later member with the same name hides every earlier one |
| Json.GetProperty | Microbot.RevisionChecker/CheckJagexVersion.cs:33-39 | fails as not-an-object exactly on a non-object; on an object it succeeds iff a member has the name, and yields the value of the last member with that name |
| Json.GetString | Microbot.RevisionChecker/CheckJagexVersion.cs:35-39 | fails exactly on a value that is neither a string nor null |
| Json.GetStringFromText | Microbot.RevisionChecker/CheckJagexVersion.cs:35-39 | GetString reads back a string or a null as written |
| Json.StringAt | Microbot.RevisionChecker/CheckJagexVersion.cs:33-39 | a path of names fails as not-an-object on a non-object, as property-not-found with the first name when the object lacks it, and as not-a-string at a leaf that is neither a string nor null |
| Json.StringAtNames | Microbot.RevisionChecker/CheckJagexVersion.cs:35-39 | two GetProperty steps and GetString compose as the code chains them |
| RevisionChecker.Extract | Microbot.RevisionChecker/CheckJagexVersion.cs:33-39 | a root that is not an object fails as not-an-object, and an object without "environments" fails as property-not-found for that name |
| RevisionChecker.ExtractDocument | Microbot.RevisionChecker/CheckJagexVersion.cs:33-39 | the five reads recover every field of a document holding them, nulls included |
| RevisionChecker.ExtractSucceedsIff | Microbot.RevisionChecker/CheckJagexVersion.cs:33-39 | the five reads succeed iff "environments" and all five paths under it can be read, and then yield the five strings read; any missing property or non-string leaf fails them |
| RevisionChecker.ExtractMissingStagingId | Microbot.RevisionChecker/CheckJagexVersion.cs:38 | a document without the staging "id" fails with property-not-found for "id" |
| RevisionChecker.StagingIdMissing | Microbot.RevisionChecker/CheckJagexVersion.cs:38 | the staging "id" path of an environments object whose staging object holds only a version fails with property-not-found for "id" |
| RevisionChecker.ProductionPaths | Microbot.RevisionChecker/CheckJagexVersion.cs:35-37 | the three production paths yield their fields whatever the staging object holds |
| RevisionChecker.PathsOfEnvironments | Microbot.RevisionChecker/CheckJagexVersion.cs:35-39 | each of the five property paths yields its own field |
| RevisionChecker.ReadMetadata | Microbot.RevisionChecker/CheckJagexVersion.cs:30-39 | a failed GET fails the read, and a successful read implies the token's payload decoded |
| RevisionChecker.ReadMetadataOfToken | Microbot.RevisionChecker/CheckJagexVersion.cs:30-39 | a token carrying an encoded metadata document yields exactly that metadata |
| RevisionChecker.MissingStagingIdFailsRun | Microbot.RevisionChecker/CheckJagexVersion.cs:26-86 | a token whose document lacks the staging id ends the run in the catch-all with the schema error, with no post and no write, whatever else would throw |
| RevisionChecker.ProductionNoticeFields | Microbot.RevisionChecker/CheckJagexVersion.cs:62 | the production message is the heading, then the previous version, then the arrow, then the new version |
| RevisionChecker.StagingNoticeFields | Microbot.RevisionChecker/CheckJagexVersion.cs:68 | the staging message is the heading, then only the new version |
| RevisionChecker.NoticesDistinct | Microbot.RevisionChecker/CheckJagexVersion.cs:62-68 | a production message never equals a staging message |
| RevisionChecker.Text | Microbot.RevisionChecker/CheckJagexVersion.cs:62-68 | no contract of its own: a null version is written as nothing, a string as itself; ProductionNoticeFields and StagingNoticeFields state the messages it builds |
| RevisionChecker.ProductionNotice | Microbot.RevisionChecker/CheckJagexVersion.cs:62 | no contract of its own: ProductionNoticeFields states its layout and NoticesDistinct separates it from the staging message |
| RevisionChecker.StagingNotice | Microbot.RevisionChecker/CheckJagexVersion.cs:68 | no contract of its own: StagingNoticeFields states its layout |
| RevisionChecker.ProductionChanged | Microbot.RevisionChecker/CheckJagexVersion.cs:60 | no contract of its own: ProductionNoticeIff proves the production notice goes out exactly when it holds |
| RevisionChecker.StagingChanged | Microbot.RevisionChecker/CheckJagexVersion.cs:66 | no contract of its own: StagingNoticeIff proves the staging notice goes out exactly when it holds |
| RevisionChecker.NewState | Microbot.RevisionChecker/CheckJagexVersion.cs:54-58 | the state written settles both comparisons: a run against it finds neither id changed |
| RevisionChecker.Notices | Microbot.RevisionChecker/CheckJagexVersion.cs:60-70 | at most two notices are planned, and some notice is planned iff there is no state or an id changed |
| RevisionChecker.Deliver | Microbot.RevisionChecker/CheckJagexVersion.cs:60-77 | posting and uploading never report "No updates detected" and produce at most one effect more than the planned notices |
| RevisionChecker.Update | Microbot.RevisionChecker/CheckJagexVersion.cs:53-81 | "No updates detected" is the report exactly when no notice is planned, and then nothing is posted or written |
| RevisionChecker.Outcome | Microbot.RevisionChecker/CheckJagexVersion.cs:26-86 | a failed GET ends the run with the fetch error and nothing done; a failing blob read ends it with nothing done and a failure report |
| RevisionChecker.DeliverShape | Microbot.RevisionChecker/CheckJagexVersion.cs:60-81 | posts are a prefix of the planned notices in order; the upload is last, writes the new state and happens only in an "Updated" run; a post fails iff a planned channel throws |
| RevisionChecker.UpdateCases | Microbot.RevisionChecker/CheckJagexVersion.cs:53-81 | the effects of each branch combination: production throws, staging throws, nothing changed, or every post went out and the upload follows |
| RevisionChecker.ApplyConcat | Microbot.RevisionChecker/CheckJagexVersion.cs:74-75 | applying two traces one after the other is applying their concatenation |
| RevisionChecker.ApplyPosted | Microbot.RevisionChecker/CheckJagexVersion.cs:89-93 | posts alone never change the blob |
| RevisionChecker.ProductionNoticeIff | Microbot.RevisionChecker/CheckJagexVersion.cs:60-64 | the production notice is posted iff there is no state or the production id changed, and it is then the first effect |
| RevisionChecker.StagingNoticeIff | Microbot.RevisionChecker/CheckJagexVersion.cs:66-70 | the staging notice is posted iff there is no state or the staging id changed, after the production notice when both are sent |
| RevisionChecker.UploadIffNotified | Microbot.RevisionChecker/CheckJagexVersion.cs:72-81 | without faults the blob is written iff a notice went out, the report says "Updated" exactly then, and the write replaces the whole state with the two new ids |
| RevisionChecker.UploadComesLast | Microbot.RevisionChecker/CheckJagexVersion.cs:72-77 | an upload comes after every planned notice, is the last effect, writes the new state and ends an "Updated" run |
| RevisionChecker.UnchangedIdsNothingHappens | Microbot.RevisionChecker/CheckJagexVersion.cs:60-81 | equal stored ids mean no post, no write and "No updates detected", whatever would throw |
| RevisionChecker.FirstRun | Microbot.RevisionChecker/CheckJagexVersion.cs:45-81 | with no blob, both notices go out, production first, then the new state is written |
| RevisionChecker.ProductionPostFailureStopsRun | Microbot.RevisionChecker/CheckJagexVersion.cs:60-86 | a throwing production post ends the run: no staging notice, no write |
| RevisionChecker.FirstRunOfToken | Microbot.RevisionChecker/CheckJagexVersion.cs:26-86 | end to end from the token: a first run posts both notices and writes the new ids |
| RevisionChecker.FailureLeavesStoreUnchanged | Microbot.RevisionChecker/CheckJagexVersion.cs:26-86 | a run that fails at any step has posted only notices and leaves the blob as it was |
| RevisionChecker.EarlyFailureDoesNothing | Microbot.RevisionChecker/CheckJagexVersion.cs:30-51 | a failure before line 53 posts nothing, writes nothing and is reported as a failure |
| RevisionChecker.SecondRunQuiet | Microbot.RevisionChecker/CheckJagexVersion.cs:26-86 | idempotence: after a run that uploaded, a run on the same metadata does nothing |
| RevisionChecker.FailedUploadRepeatsNotices | Microbot.RevisionChecker/CheckJagexVersion.cs:72-86 | when the upload throws, the next run on the same metadata posts the same notices again and then writes |
| RevisionChecker.World.ReadBlob | Microbot.RevisionChecker/CheckJagexVersion.cs:41-51 | yields the blob's content (None when it does not exist), or the store failure |
| RevisionChecker.World.Post | Microbot.RevisionChecker/CheckJagexVersion.cs:89-93 | a delivered message is appended to the effect log; the blob is untouched |
| RevisionChecker.World.Upload | Microbot.RevisionChecker/CheckJagexVersion.cs:74-75 | a successful upload overwrites the whole blob with the state and logs it; a throwing one changes nothing |
| RevisionChecker.Run | Microbot.RevisionChecker/CheckJagexVersion.cs:26-86 | the effects appended to the world, the blob afterwards and the report are those of Outcome on the blob's previous content; the blob stays the result of its effect log |
| RevisionChecker.NotifyAndSave | Microbot.RevisionChecker/CheckJagexVersion.cs:53-81 | the posts, the upload and the report are those of Update on the stored state and the metadata |

## Left out

- The timer trigger and `RunOnStartup` (line 24): the model is one run, started by a call to `Run`.
- The HTTP client: `GetStringAsync` is the `response` parameter. `PostAsync` sends no request and only records the message as an effect. A non-2xx reply to a post does not throw in .NET, so it counts as delivered.
- `JsonDocument.Parse` (line 32) is the `parse` parameter. The UTF-8 decoding of line 100 is not modelled: the payload stays bytes, and `parse` maps bytes to a document.
- The Azure Blob SDK: creating the container, `ExistsAsync`, `OpenReadAsync` and deserializing are one fallible read (`Faults.storeFails`). A blob whose JSON lacks a property or holds "null" is not modelled; the store holds a `VersionState` or nothing.
- The serialized form of `VersionState` (line 74 and lines 103-107): the blob holds the state value itself.
- Logging and `DateTime.UtcNow` (lines 28, 76, 80, 85): the text of the logged line is the `Report`.
- `async`/`await`: the model is sequential, as the awaits make the code.
- The static fields `lastProductionId` and `lastStagingId` (lines 11-12): nothing reads or writes them.
- Signature verification: the code performs none.
- A `PostAsync` that throws counts as undelivered (`World.Post`). A time-out that throws after the webhook already received the message is not modelled.
- Strings are sequences of Unicode code points. C#'s `Length` counts UTF-16 code units, which differs for characters outside the Basic Multilingual Plane. For the padding of line 98 this changes nothing: any such character is outside the base64 alphabet, so decoding fails either way.
- Translation from the URL-safe alphabet of section 5 of RFC 4648: the code does not do it, and `Jwt.UrlSafeCharacterRejected` states the consequence.
