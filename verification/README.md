# FiveProtect: a verified model of the connect gate and its data path

FiveProtect decides whether a FiveM player may join a server. A companion on the player's machine
scans it, sends the result as JSON, and the backend turns it into a verdict. This project models the
code on that path in Dafny and proves what each part is relied on for.

- **JSON** (`JsonValue`, `JsonGrammar`, `JsonPrinter`, `JsonParser`, `JsonRoundTrip`, `JsonUnicode`, `JsonTexts`,
  `JsonSpacing`, `JsonFailures`). The hand-written C++ value, printer and recursive-descent parser.
  `JsonGrammar` and `JsonPrinter.Print` say what is read and written; the classes `JsonParser.Parser` (cursor,
  first error) and `JsonPrinter.Sink` (growing text) are the code's loops, proved against them. `JsonTexts` is
  an account of the accepted texts that does not know the parser: documents laid out with any white space, in any
  spelling of their strings and numbers. A text is read as a value if and only if it is such a document of it, at
  most 32 brackets deep; the printed text is the document without white space (`JsonSpacing`); and
  `JsonFailures` says what message, at what place, any other text is refused with. A `char` stands for a byte.
- **Codec** (`Schema`, `Codec`, `CodecRoundTrip`, `CodecAcceptance`, `Messages`, `MessageAcceptance`). The emitted
  C++ `to_json`/`from_json` as an interpreter of the schema, for every registry that validates. What a decoder
  accepts is stated with its comparisons and formats written out, for every type, and field by field for the
  messages of the gate, which also survive the way end to end: encode, print, parse, decode.
- **Policy** (`Policy`, `PolicyReport`, `Remediation`). The table-driven evaluator, what it reports to the player
  line by line at each tier, the explanation shown, and the two kinds of verdict. A `char` stands for a UTF-16 unit.
- **Connect gate** (`Sessions`, `Gate`, `GateInvariant`, `GateRequests`, `GateSafety`, `GateAdmission`,
  `GateStability`, `GateFinality`, `GateLiveness`). `Sessions.SessionStore` is the table with a method per SQL
  statement. `Gate` is the concurrent protocol: each statement, and each resumption of a request between two
  statements, is one step; attestations, verdict polls, heartbeats, liveness requests, the sweep, the clock, list
  changes and crashes interleave freely. All theorems hold for every run. `Gate.Attest`, `Poll`, `Beat` and `Look`
  are the four request handlers, statement by statement; `GateRequests` says what each request is answered and
  leaves in the tables, from arrival to answer, with any steps of others in between. `PendingRead` and `OutcomeRead`
  are the companion's two polls. Hashing and sealing are parameters; a session is created with some sealed text
  that opens to its nonce.
- **Companion** (`Base64`, `Updater`, `UpdaterDecisions`, `ScanBuffer`). The base64 encoder and the updater's
  decoder with its unmasked accumulator, the signature spellings, the signing payload, when a manifest is acted on
  and why it is refused, version runs, and the buffer negotiation between the Rust shell and the C++ engine,
  whatever the engine answers.

## Where the code differs from what one would expect

The code is modelled as it is; each point below is a theorem.

- A terminated session is not final. The verdict poll gives up after 20 seconds, the nonce lives for 30, and
  `recordVerdict` and `consumeNonce` do not look at `state`: an attestation in between turns `terminated`
  back into `active` (`TerminatedIsNotFinal`). So does the verdict poll of a tenant that fails open, for a
  session a closing heartbeat ended before it was decided, even long after its nonce died
  (`UndecidedRevives`). `FinalExactly` says exactly when no run makes a terminated session active: it is
  decided, its nonce is claimed or expired, and no `allow` for it is in flight. `SettledExactly` says the
  same of its verdict.
- Heartbeats at gaps under 210 seconds do not by themselves keep a player in: the liveness handler decides on
  the row it read, so a slow request kicks a session that was refreshed meanwhile. `KickFreeExactly`: nobody
  is kicked for silence if and only if heartbeat gap and request latency stay within 210 seconds together
  (or the gap is 0, when no session can be active at all).
- The comment in `remediation.ts` says that only the first blocking failure is explained. An undetermined
  IOMMU at `standard` only warns, and is explained all the same; with an outdated build it hides the real
  cause (`ExplainsTheCauseExactly`, with `HiddenCause` as the input).
- Hex is tried before base64 for signatures, so a base64 spelling is misread if and only if it is not empty
  and all hex (`SignatureFromBase64Exactly`, with `HexTakesPrecedence` as an input); never at a length that is
  not a multiple of three, such as 64.
- A signing payload stands for one manifest only, if and only if no field of it holds a newline
  (`PayloadInjectiveExactly`); with one, another manifest has the same payload (`NewlineConfuses`).
- A value followed by anything but white space is refused, with one exception: what continues a number makes
  another number (`DigitsJoin`, and `NumberContinued` for exactly when; `SpacedRoundTrip` is every other tail).
- The parser accepts a lone low surrogate. Text parsed from escapes is UTF-8 if and only if it has none
  (`EscapedTextIsUtf8Exactly`).

## Model

| member | source | states |
|---|---|---|
| JsonValue.InsertSpec | packages/protocol/cpp/include/fiveprotect_json.hpp:80-83 | inserting or assigning keeps the map ordered, sets that key and leaves every other |
| JsonValue.Extensional | packages/protocol/cpp/include/fiveprotect_json.hpp:29-29 | two ordered maps that answer every lookup alike are equal |
| JsonValue.LessExactly | packages/protocol/cpp/include/fiveprotect_json.hpp:29-29 | keys are ordered lexicographically: the first difference decides, a prefix comes first |
| JsonPrinter.Sink.EscapeInto | packages/protocol/cpp/include/fiveprotect_json.hpp:117-139 | appends the quoted, escaped string to the shared output |
| JsonPrinter.Sink.SerializeInto | packages/protocol/cpp/include/fiveprotect_json.hpp:141-179 | appends the text of the value to the shared output and changes nothing before it |
| JsonPrinter.Sink.ItemsInto | packages/protocol/cpp/include/fiveprotect_json.hpp:154-164 | appends a whole array, commas between items |
| JsonPrinter.Sink.MembersInto | packages/protocol/cpp/include/fiveprotect_json.hpp:165-176 | appends a whole object in key order |
| JsonPrinter.Serialize | packages/protocol/cpp/include/fiveprotect_json.hpp:181-185 | the text of a value |
| JsonParser.Parser.Fail | packages/protocol/cpp/include/fiveprotect_json.hpp:196-201 | the first error is kept, with the offset it happened at |
| JsonParser.Parser.SkipSpaces | packages/protocol/cpp/include/fiveprotect_json.hpp:203-212 | the cursor passes exactly a run of the four white-space characters |
| JsonParser.Parser.LiteralWord | packages/protocol/cpp/include/fiveprotect_json.hpp:214-218 | reads exactly the word or fails |
| JsonParser.Parser.ParseHex4 | packages/protocol/cpp/include/fiveprotect_json.hpp:239-252 | four hex digits as a number, with the two failures |
| JsonParser.Parser.ParseUnicode | packages/protocol/cpp/include/fiveprotect_json.hpp:276-293 | one escape or surrogate pair, with the failures of a half pair |
| JsonParser.Parser.ParseString | packages/protocol/cpp/include/fiveprotect_json.hpp:254-298 | the loop reads what the grammar says of the text from the cursor on |
| JsonParser.Parser.ParseNumber | packages/protocol/cpp/include/fiveprotect_json.hpp:300-327 | token, int64 range and failures as in the grammar |
| JsonParser.Parser.ScanToken | packages/protocol/cpp/include/fiveprotect_json.hpp:301-314 | the number token is the longest run the grammar allows, and whether it is an integer |
| JsonParser.Parser.Convert | packages/protocol/cpp/include/fiveprotect_json.hpp:316-326 | the token's value, or out of range |
| JsonParser.Parser.ParseAny | packages/protocol/cpp/include/fiveprotect_json.hpp:329-417 | value, failure and cursor of every call agree with the grammar; advances on success |
| JsonParser.Parser.ParseArrayItems | packages/protocol/cpp/include/fiveprotect_json.hpp:363-379 | the item loop agrees with the grammar |
| JsonParser.Parser.ParseSeparator | packages/protocol/cpp/include/fiveprotect_json.hpp:367-378 | a comma goes on, the closing bracket ends, anything else fails |
| JsonParser.Parser.ParseKey | packages/protocol/cpp/include/fiveprotect_json.hpp:391-396 | a key and its colon |
| JsonParser.Parser.ParseObjectMembers | packages/protocol/cpp/include/fiveprotect_json.hpp:390-412 | the member loop agrees with the grammar |
| JsonParser.ParseText | packages/protocol/cpp/include/fiveprotect_json.hpp:422-436 | terminates on every text with the grammar's result; the error is the first failure's message and offset, or tells of trailing content |
| JsonRoundTrip.RoundTrip | packages/protocol/cpp/include/fiveprotect_json.hpp:181-436 | parsing the printed text of a double-free value gives exactly that value if its height is at most 32, and nothing otherwise |
| JsonRoundTrip.ParsedBounded | packages/protocol/cpp/include/fiveprotect_json.hpp:329-332 | whatever the parser accepts is well-formed and nests no deeper than the limit leaves |
| JsonRoundTrip.CollapseSpec | packages/protocol/cpp/include/fiveprotect_json.hpp:399-399 | duplicate keys collapse to the last value read, in key order |
| JsonRoundTrip.ParsePrintFixedPoint | packages/protocol/cpp/include/fiveprotect_json.hpp:181-436 | printing an accepted double-free value and parsing again gives the same value |
| JsonTexts.AcceptsExactly | packages/protocol/cpp/include/fiveprotect_json.hpp:194-436 | a text is read as a value if and only if it is a document that means it: a layout with any of the four white-space characters around its tokens, any spelling of strings and numbers, at most 32 brackets deep |
| JsonTexts.DocumentRead | packages/protocol/cpp/include/fiveprotect_json.hpp:194-436 | every valid document is read as what it means when only white space follows, and is refused when it nests deeper than 32 or anything else follows |
| JsonSpacing.SpacedRoundTrip | packages/protocol/cpp/include/fiveprotect_json.hpp:181-436 | a printed double-free value with any runs of space, tab, line feed and carriage return put around its tokens parses back to itself up to height 32; followed by anything else it gives nothing |
| JsonSpacing.DigitsJoin | packages/protocol/cpp/include/fiveprotect_json.hpp:300-327 | the one exception: digits right behind a printed number are read as more of it |
| JsonFailures.NumberContinued | packages/protocol/cpp/include/fiveprotect_json.hpp:300-436 | and then nothing is read exactly if the longer token stands for no number or something else follows it |
| JsonSpacing.TextIsCompact | packages/protocol/cpp/include/fiveprotect_json.hpp:115-185 | the printed text is the document of the value without white space: seven short escapes, `\u00` and two lower-case digits for other control characters, no leading zeros |
| JsonFailures.StringFailsExactly | packages/protocol/cpp/include/fiveprotect_json.hpp:239-298 | a string is refused with a message at a place if and only if its first bad escape, or its missing end, is of that kind and there |
| JsonFailures.ScalarFailsExactly | packages/protocol/cpp/include/fiveprotect_json.hpp:300-357 | a value that is no bracket is refused exactly so, behind any white space |
| JsonFailures.ItemFails | packages/protocol/cpp/include/fiveprotect_json.hpp:363-379 | after any valid items, the failure of the next item is the failure of the array |
| JsonFailures.ListBreaks | packages/protocol/cpp/include/fiveprotect_json.hpp:366-378 | an array that goes on wrongly after any items fails there, as unterminated or for its separator |
| JsonFailures.KeyFails | packages/protocol/cpp/include/fiveprotect_json.hpp:390-394 | a missing or broken key is the failure of the object, after any members |
| JsonFailures.ColonFails | packages/protocol/cpp/include/fiveprotect_json.hpp:395-396 | so is a missing colon |
| JsonFailures.MemberFails | packages/protocol/cpp/include/fiveprotect_json.hpp:397-398 | so is the failure of a member's value |
| JsonFailures.RecordBreaks | packages/protocol/cpp/include/fiveprotect_json.hpp:400-411 | an object that goes on wrongly after any members fails there |
| JsonUnicode.Utf8Decodes | packages/protocol/cpp/include/fiveprotect_json.hpp:221-237 | an independent decoder for RFC 3629 reads the appended bytes back exactly for Unicode scalar values |
| JsonUnicode.Utf8Injective | packages/protocol/cpp/include/fiveprotect_json.hpp:221-237 | distinct scalar values have distinct bytes, whatever follows |
| JsonUnicode.PairsBijective | packages/protocol/cpp/include/fiveprotect_json.hpp:279-286 | surrogate pairs map one-to-one onto U+10000..U+10FFFF (section 7 of RFC 8259) |
| JsonUnicode.EscapedTextIsUtf8Exactly | packages/protocol/cpp/include/fiveprotect_json.hpp:254-298 | every sequence of escapes the parser accepts is read, and the result is UTF-8, spelling what they denote, if and only if none is a lone low surrogate |
| JsonUnicode.UnicodeYields | packages/protocol/cpp/include/fiveprotect_json.hpp:276-292 | whatever the parser accepts after a `\u` is four hex digits or a proper pair, and yields what they denote |
| JsonUnicode.LoneLowSurrogate | packages/protocol/cpp/include/fiveprotect_json.hpp:276-292 | a lone low surrogate is accepted and its bytes are not UTF-8 |
| Schema.ValidateRegistry | packages/protocol/src/ir.ts:140-182 | accepts exactly the registries whose structs have fields, distinct names and references that resolve backwards |
| Schema.WalkResolves | packages/protocol/src/ir.ts:144-166 | the walk accepts exactly the types whose references resolve |
| Schema.Builder.DefineEnum | packages/protocol/src/ir.ts:67-78 | adds an enum if its name is new and it has values; names stay unique |
| Schema.Builder.DefineStruct | packages/protocol/src/ir.ts:80-88 | adds a struct if its name is new; names stay unique |
| Codec.CheckSemver | packages/protocol/src/generators/cpp.ts:168-183 | the scanning loop accepts exactly three dotted groups of digits, then anything but a dot |
| Codec.ToJson | packages/protocol/src/generators/cpp.ts:241-263 | the emitted expression computes the value of a message |
| Codec.StructToJson | packages/protocol/src/generators/cpp.ts:218-239 | the emitted field assignments compute the object of a message |
| Codec.FromJson | packages/protocol/src/generators/cpp.ts:316-395 | the emitted checks and assignments decode or reject a value |
| Codec.ArrayFromJson | packages/protocol/src/generators/cpp.ts:372-391 | every element decodes, in order, or the array is rejected |
| Codec.RejectUnknownFields | packages/protocol/src/generators/cpp.ts:185-198 | accepts exactly the objects whose keys are all declared |
| Codec.StructFromJson | packages/protocol/src/generators/cpp.ts:265-313 | the emitted struct decoder, with missing and null fields |
| CodecRoundTrip.MessageRoundTrip | packages/protocol/src/generators/cpp.ts:218-410 | decoding undoes encoding for every registry and every message that meets the constraints |
| CodecRoundTrip.EncodeDecodeStruct | packages/protocol/src/generators/cpp.ts:218-410 | whatever is accepted meets the constraints, and encoding it gives the input without its explicit nulls |
| CodecRoundTrip.AcceptedRoundTrip | packages/protocol/src/generators/cpp.ts:218-410 | a null-free, double-free accepted object meets the constraints and is given back unchanged |
| CodecRoundTrip.EncodedStructShape | packages/protocol/src/generators/cpp.ts:218-263 | an encoded message is a well-formed, double-free value no higher than its type |
| CodecRoundTrip.WireRoundTrip | packages/protocol/src/generators/cpp.ts:218-410 | encode, print, parse and decode give back the message for every type within the depth limit |
| CodecAcceptance.FormatExactly | packages/protocol/src/generators/cpp.ts:119-183 | each string format by position and character class; a version is three groups of digits with dots and then no further dot or digit |
| CodecAcceptance.DecodesExactly | packages/protocol/src/generators/cpp.ts:316-395 | a value is accepted for a type if and only if it meets the comparisons as written: lengths, counts and numbers with both bounds included, formats, enumerators; and scalars are read as they are |
| CodecAcceptance.StructDecodesExactly | packages/protocol/src/generators/cpp.ts:265-313 | an object is accepted if and only if its keys are declared, no mandatory field is absent or null, and each field present is accepted |
| Messages.ProtocolReady | packages/protocol/generated/cpp/fiveprotect_protocol.hpp:1058-1700 | the gate's schema validates and is one the generator can emit |
| Messages.GateMessageHeight | packages/protocol/generated/cpp/fiveprotect_protocol.hpp:1058-1700 | snapshots, requests and verdicts encode to height at most 3 |
| Messages.GateMessageWireRoundTrip | packages/protocol/generated/cpp/fiveprotect_protocol.hpp:1058-1700 | every constraint-satisfying snapshot, request and verdict survives the wire unchanged |
| MessageAcceptance.SnapshotAccepted | packages/protocol/generated/cpp/fiveprotect_protocol.hpp:1086-1168 | a snapshot is accepted if and only if its fields, written out with their bounds, are as declared |
| MessageAcceptance.RequestAccepted | packages/protocol/generated/cpp/fiveprotect_protocol.hpp:1458-1494 | a request is accepted if and only if the rest of it is as declared and its nonce has exactly 64 hex digits |
| MessageAcceptance.VerdictAccepted | packages/protocol/generated/cpp/fiveprotect_protocol.hpp:1622-1700 | a verdict is accepted if and only if its fields, written out with their wire values, are as declared |
| Policy.EvaluatePolicy | services/backend/src/attestation/policy.ts:108-148 | the loop computes the results in report order and the insertion-ordered set of reasons |
| Policy.ReasonsExact | services/backend/src/attestation/policy.ts:111-141 | each reason once, and exactly those of a blocking requirement or an outdated build |
| Policy.AllowedExactly | services/backend/src/attestation/policy.ts:108-148 | allowed if and only if the build is accepted and every requirement enforced as `block` is met, for every table |
| Policy.AllowedAtTier | services/backend/src/attestation/policy.ts:29-71 | the table in force as a whole: what a machine has to be to be allowed at each tier |
| Policy.StricterAddsReasons | services/backend/src/attestation/policy.ts:108-148 | for any two tables ordered pointwise the reasons only grow |
| Policy.TiersNest | services/backend/src/attestation/policy.ts:29-71 | allowed at `strict` implies allowed at `standard` implies allowed at `relaxed` |
| Policy.NormaliseIdempotent | services/backend/src/attestation/policy.ts:237-241 | normalising an address twice changes nothing |
| Policy.MappedMatchesPlain | services/backend/src/attestation/policy.ts:230-241 | an IPv4-mapped IPv6 address, in either case, compares equal to its IPv4 form |
| PolicyReport.ReasonsAtTier | services/backend/src/attestation/policy.ts:108-252 | at every tier each reason is given if and only if its own cause holds, written out: no game process, different addresses, an unaccepted build, a demanded feature missing; and no other is given |
| PolicyReport.ReasonsInOrder | services/backend/src/attestation/policy.ts:73-148 | the list of reasons itself, in the order of the report |
| PolicyReport.ReportAtTier | services/backend/src/attestation/policy.ts:73-215 | the report of every tier, line by line: requirement, status and detail |
| PolicyReport.StatusesExact | services/backend/src/attestation/policy.ts:111-134 | under any table, which status a line has |
| PolicyReport.InForceExactly | services/backend/src/attestation/policy.ts:49-71 | the table in force is the target table but for the driver check, which is skipped |
| PolicyReport.NormaliseExactly | services/backend/src/attestation/policy.ts:237-241 | an address is what stands between its white space in lower case, without `::ffff:` before four groups of one to three digits |
| Remediation.ExplainsABlockingRequirement | services/backend/src/attestation/remediation.ts:94-112 | if any requirement blocked, the one explained is the first blocking one in report order |
| Remediation.ExplainedExactly | services/backend/src/attestation/remediation.ts:94-120 | for any reasons and entries: the first failed or undetermined entry is explained unless it is the attestation itself, else the first reason that has a text |
| Remediation.ExplainsWithoutBlocker | services/backend/src/attestation/remediation.ts:94-120 | what is explained when nothing blocked |
| Remediation.RemediationExactly | services/backend/src/attestation/remediation.ts:94-120 | every deny carries remediation; exactly one kind of allow does too |
| Remediation.ExplainsTheCauseExactly | services/backend/src/attestation/remediation.ts:94-120 | a denied player is told a cause of the deny, except an outdated build behind an undetermined IOMMU |
| Remediation.HiddenCause | services/backend/src/attestation/remediation.ts:94-120 | a denied input whose only cause, an outdated build, is not the one explained |
| Remediation.PolicyVerdictFits | services/backend/src/attestation/service.ts:64-80 | a verdict on a schema-valid snapshot fits its wire bounds |
| Remediation.TimeoutVerdictFits | services/backend/src/attestation/service.ts:113-151 | so does a timeout verdict, and its remediation never needs the fallback text |
| Remediation.DetailBoundIsTight | services/backend/src/attestation/policy.ts:192-197 | a longest probe note fills the 200 units of a detail exactly |
| Sessions.SessionStore.CreateSession | services/backend/src/repositories/sessions.ts:40-62 | a new session is pending, undecided, unclaimed and sealed, and expires after the TTL; refused if and only if the digest is taken |
| Sessions.SessionStore.Claim | services/backend/src/repositories/sessions.ts:85-103 | claims the one live unclaimed row with the digest, in one statement, and nothing else |
| Sessions.SessionStore.ConsumeNonce | services/backend/src/repositories/sessions.ts:78-116 | the four outcomes exactly, and afterwards nothing is left to claim |
| Sessions.SessionStore.RecordVerdict | services/backend/src/repositories/sessions.ts:126-159 | overwrites the verdict whatever the state was: active exactly on allow, else terminated; the heartbeat refreshed on allow and kept otherwise; the claim and every other row untouched |
| Sessions.SessionStore.StoreSnapshot | services/backend/src/repositories/sessions.ts:161-180 | the session's snapshots grow by exactly this one, whose build becomes the current one; no other session's change |
| Sessions.SessionStore.RecordHeartbeat | services/backend/src/repositories/sessions.ts:264-278 | refreshes exactly an active session and reports whether it did |
| Sessions.SessionStore.TerminateSession | services/backend/src/repositories/sessions.ts:280-293 | ends the session once, keeping the first reason |
| Sessions.SessionStore.ExpireStaleSessions | services/backend/src/repositories/sessions.ts:301-308 | expires exactly the stale pending rows and counts them |
| Sessions.SessionStore.FindPendingByGameIp | services/backend/src/repositories/sessions.ts:199-218 | every live unclaimed session of the address, each once, the newest first |
| GateInvariant.NextKeeps | services/backend/src/attestation/service.ts:35-89 | every step of every request keeps the invariant and only adds evidence |
| GateInvariant.AfterKeeps | services/backend/src/attestation/service.ts:35-89 | so does every run, over all interleavings |
| GateInvariant.ReachableInv | services/backend/src/repositories/sessions.ts:40-308 | every reachable state satisfies the invariant |
| GateRequests.HeartbeatAnswered | services/backend/src/routes/attest.ts:187-240 | a heartbeat from arrival to answer, whoever interleaves: another build ends the session first, then a closing companion, then a missing game, each with its own reason; else an active session is kept alive |
| GateRequests.AcknowledgedExactly | services/backend/src/routes/attest.ts:187-240 | a heartbeat is acknowledged if and only if its session is found, active when it writes, not closing, the game there, and no snapshot of another build stored when it read |
| GateRequests.AttestationAnswered | services/backend/src/attestation/service.ts:35-89 | an attestation for a live session from arrival to answer: the row it claims, the snapshot it stores, and the verdict it writes, which is the policy's on the list as read |
| GateRequests.AttestationRefused | services/backend/src/repositories/sessions.ts:103-116 | without a live session it changes nothing, and is told unknown, reused or expired by the row of its second statement |
| GateRequests.VerdictAnswered | services/backend/src/routes/sessions.ts:89-131 | a verdict poll keeps the deadline of 20 seconds and the fail mode of its arrival, writes no earlier and nothing but the timeout verdict of that mode, and answers a verdict its session carried during the request |
| GateRequests.PollReadsRow | services/backend/src/routes/sessions.ts:95-99 | each round reads the session of the nonce and tenant, or answers that there is none |
| GateRequests.PollDecides | services/backend/src/routes/sessions.ts:101-131 | a decided row is answered at once, an undecided one polled again before the deadline and timed out from it on |
| GateRequests.LivenessAnswered | services/backend/src/routes/sessions.ts:141-229 | a liveness request from arrival to answer: terminated sessions are kicked with their own reason, active ones once 210 seconds have passed since they were heard from, and only those are ended, as lost |
| GateRequests.UnlistedIsOutdated | services/backend/src/attestation/service.ts:60-68 | a build taken off the list admits no attestation that reads the list before it is put back |
| GateRequests.CreatesExactly | services/backend/src/repositories/sessions.ts:40-62 | the row of a new session, column by column |
| GateRequests.SweepsExactly | services/backend/src/repositories/sessions.ts:301-308 | the sweep marks exactly the pending sessions whose nonce ran out |
| GateAdmission.AdmissionSafety | services/backend/src/attestation/service.ts:35-89 | in every run, a stored or told `allow` that is not marked failed open has its evidence: claim in time, one snapshot, a policy that allows it, matching addresses, and a build that was on the list while the attestation was claimed and undecided |
| GateAdmission.FailClosedSafety | services/backend/src/routes/sessions.ts:95-126 | with the fail mode always closed, every active session has that evidence |
| GateAdmission.RevokedBuildAdmitsNobody | services/backend/src/attestation/service.ts:60-80 | once no judgement made before the revocation is left, no run stores a new unmarked `allow` on a build that is off the list, until it is listed again |
| GateAdmission.OutcomeDisclosed | services/backend/src/routes/attest.ts:112-151 | the outcome is answered exactly when decided, after a claim only to the claiming address; an unmarked `allow` only to that address and with its evidence |
| GateSafety.ReachableRows | services/backend/src/repositories/sessions.ts:40-180 | the column invariants of every reachable row, and at most one snapshot |
| GateSafety.ConsumedOnce | services/backend/src/repositories/sessions.ts:78-116 | however attestations race, a nonce is reported consumed at most once |
| GateSafety.PendingReadExactly | services/backend/src/routes/attest.ts:55-98 | the companion gets the nonce of the one live unclaimed session of its address, or nothing, or a refusal; the null checks never fire |
| GateSafety.HandedOutBeforeClaim | services/backend/src/routes/attest.ts:55-98 | a nonce is handed out only before its claim, and a later claim is not earlier than the read |
| GateStability.SettledForever | services/backend/src/repositories/sessions.ts:126-159 | from a settled session on no run changes the verdict, `terminated` is absorbing and no heartbeat is acknowledged for it |
| GateStability.SettledExactly | services/backend/src/routes/sessions.ts:95-126 | a decided session is settled if and only if no run can record another verdict for it |
| GateStability.LiveNonceRevives | services/backend/src/repositories/sessions.ts:85-99 | while the nonce is live, any session can still become active |
| GateStability.TerminatedIsNotFinal | services/backend/src/repositories/sessions.ts:126-159 | a run that ends in `active` after `terminated` |
| GateFinality.FinalExactly | services/backend/src/repositories/sessions.ts:78-159 | no run makes a terminated session active if and only if it is decided, its nonce is claimed or expired, and no `allow` for it can come of a request in flight |
| GateFinality.FinalForever | services/backend/src/repositories/sessions.ts:126-159 | from such a session on, every run leaves it terminated |
| GateFinality.UndecidedRevives | services/backend/src/routes/sessions.ts:95-126 | a reachable session, terminated undecided and its nonce dead, that can become active |
| GateLiveness.NoKickWhileRefreshed | services/backend/src/routes/sessions.ts:141-164 | in every run whose heartbeat gaps and request latency stay within 210 seconds together, nobody is kicked for silence |
| GateLiveness.KickedWhileRefreshed | services/backend/src/routes/sessions.ts:141-164 | whenever gap and latency exceed 210 seconds together, a run of prompt requests and refreshed sessions that kicks one heard from this millisecond |
| GateLiveness.KickFreeExactly | services/backend/src/routes/sessions.ts:141-229 | nobody is kicked for silence, in any run so timed, if and only if gap and latency stay within 210 seconds together (or the gap is 0) |
| GateLiveness.KickIsFinal | services/backend/src/routes/sessions.ts:152-158 | with no verdict write in flight, a kick for silence is final in every run after it |
| GateLiveness.SilentSessionEnds | services/backend/src/routes/sessions.ts:141-164 | from read to kick, whoever interleaves: a session read active and silent for 210 seconds ends terminated, and for good with no verdict write in flight |
| Base64.Encode | apps/companion/crates/fiveprotect-companion/src/shell.rs:102-127 | the chunk loop computes the encoding |
| Base64.AlphabetExactly | apps/companion/crates/fiveprotect-core/src/updater.rs:169-178 | both directions go by the alphabet of section 4 of RFC 4648, in order |
| Base64.Decode | apps/companion/crates/fiveprotect-core/src/updater.rs:168-187 | the 32-bit accumulator loop computes the decoding, or fails |
| Base64.Accumulate | apps/companion/crates/fiveprotect-core/src/updater.rs:176-184 | the low bits that make up a byte survive the accumulator's wrap-around |
| Base64.RoundTrip | apps/companion/crates/fiveprotect-core/src/updater.rs:168-187 | the decoder undoes the encoder on every byte sequence |
| Base64.EncodedLength | apps/companion/crates/fiveprotect-companion/src/shell.rs:102-127 | four characters for every started group of three bytes |
| Base64.DecodedExactly | apps/companion/crates/fiveprotect-core/src/updater.rs:168-187 | fails exactly on a character outside the alphabet before the padding; otherwise six bits a character, rounded down |
| Updater.SignatureFromHex | apps/companion/crates/fiveprotect-core/src/updater.rs:157-162 | a hex spelling in either case gives the bytes back |
| Updater.SignatureFromBase64Exactly | apps/companion/crates/fiveprotect-core/src/updater.rs:157-162 | a base64 spelling gives the bytes back exactly when it could not be taken for hex |
| Updater.SignatureRecovered | apps/companion/crates/fiveprotect-core/src/updater.rs:127-162 | every length that is not a multiple of three is recovered from both spellings |
| Updater.HexTakesPrecedence | apps/companion/crates/fiveprotect-core/src/updater.rs:157-162 | three bytes whose base64 spelling is misread as hex |
| Updater.PayloadDetermines | apps/companion/crates/fiveprotect-core/src/updater.rs:45-51 | a manifest without newlines in its fields shares its payload with no other, whatever the other contains |
| Updater.NewlineConfuses | apps/companion/crates/fiveprotect-core/src/updater.rs:45-51 | with a newline in any field, another manifest has the same payload |
| Updater.PayloadInjectiveExactly | apps/companion/crates/fiveprotect-core/src/updater.rs:45-51 | a payload stands for one manifest only if and only if no field of it has a newline |
| Updater.VersionRead | apps/companion/crates/fiveprotect-core/src/updater.rs:190-199 | a dotted triple reads back whatever follows a further dot, a dash or a plus |
| Updater.SameOriginExactly | apps/companion/crates/fiveprotect-core/src/updater.rs:202-220 | two texts have the same origin if and only if they have the same scheme and the same authority, case and surrounding space aside; no prefix will do |
| Updater.VersionsIncrease | apps/companion/crates/fiveprotect-core/src/updater.rs:94-124 | along any run of installations the version triple strictly increases, so no version is installed twice |
| UpdaterDecisions.SignatureExactly | apps/companion/crates/fiveprotect-core/src/updater.rs:157-162 | an even number of hex digits stands for its pairs, anything else is base64 |
| UpdaterDecisions.PayloadExactly | apps/companion/crates/fiveprotect-core/src/updater.rs:45-51 | the signed text, line by line |
| UpdaterDecisions.VersionExactly | apps/companion/crates/fiveprotect-core/src/updater.rs:190-199 | a text is read as a version if and only if it is three numbers below 2^32 with dots between them, whatever follows a further dot, a dash or a plus |
| UpdaterDecisions.ActsExactly | apps/companion/crates/fiveprotect-core/src/updater.rs:94-124 | a manifest is acted on if and only if its signature decodes to 64 bytes that verify over its payload, channel and origin match, its version triple is greater, and the bucket is below the percentage |
| UpdaterDecisions.RefusesExactly | apps/companion/crates/fiveprotect-core/src/updater.rs:94-142 | every refusal has its own cause, the first that applies in the order of the code |
| UpdaterDecisions.InstalledIsTrusted | apps/companion/crates/fiveprotect-core/src/updater.rs:94-142 | along any run of installations every installed manifest was signed, of its channel and origin, in its rollout, and newer than what it replaced |
| UpdaterDecisions.LaterIsNewer | apps/companion/crates/fiveprotect-core/src/updater.rs:94-124 | and the version is newer after any installations than before |
| ScanBuffer.Deliver | apps/companion/native/src/abi.cpp:73-82 | writes the text and its NUL if they fit and nothing otherwise; reports the size either way |
| ScanBuffer.DeliveredConforms | apps/companion/native/src/abi.cpp:73-82 | what is left in the buffer keeps the contract of the call |
| ScanBuffer.Scan | apps/companion/crates/fiveprotect-companion/src/engine.rs:92-133 | the loop ends for every engine, with the specified outcome |
| ScanBuffer.ScanExactly | apps/companion/crates/fiveprotect-companion/src/engine.rs:92-133 | for any engine: 64 KiB first, then just what it asks for as long as that is more than it had and at most 4 MiB; the last reply decides |
| ScanBuffer.ScanConforms | apps/companion/crates/fiveprotect-companion/src/engine.rs:92-133 | with a conforming engine the bytes are the whole text of one single call, and a refusal is only ever for size |
| ScanBuffer.ConstantSizeExactly | apps/companion/crates/fiveprotect-companion/src/engine.rs:92-133 | for a text of constant size: at most two calls, and the text exactly when it and its NUL fit 4 MiB |
| ScanBuffer.CallsBounded | apps/companion/crates/fiveprotect-companion/src/engine.rs:92-133 | the number of calls is bounded whatever the engine answers |

## Left out

- Doubles: printing and parsing them is a parameter (`FloatLib`), and the round trips are stated for values without them; numeric equality of Int and Double is not modelled.
- Codec.FromJson: does not model the error text, nor what a failed call leaves in `out`.
- Codec.StructFromJson: likewise; only whether a value is accepted, and what it decodes to.
- Nested arrays, which the C++ generator cannot emit, and the output of the other generators and of `Writer`.
- The schemas of messages other than the gate's snapshot, quote, request, requirement result and verdict.
- Cryptography: digest, sealing and signature verification are functions or relations; key rotation is not modelled.
- Fastify, zod, the PostgreSQL driver, authentication, rate limits, logging and command-line tools; a request enters as already parsed.
- The columns `attested_at` (written together with `consumed_at`) and `grace_expires_at` (never read back), and the wire fields that only repeat a timestamp.
- Sessions.SessionStore.FindPendingByGameIp: gives the sessions, not the selected columns and the joined server name.
- The canonical form `inet` gives an address.
- Deletion of old snapshots and sessions, and the answers to malformed requests.
- The prose of the German texts: they are named and known by their length in UTF-16 units.
- Addresses outside ASCII: trimming and lower-casing are modelled for ASCII.
- `String::from_utf8` and `serde_json` on the scanned bytes, the NUL checks on the arguments of `scan`, and the engine's argument and internal error paths beyond their codes.
- `verify_download`: the hash is a parameter nobody else in the model needs.
- `merge_server_view`, process-name matching, the window state machine, Windows probes, the tray, the user interface and HTTP framing: operating-system calls, presentation, or easy members.
