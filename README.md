# kadisoka-framework IAM core in Dafny

A Dafny model of the identity-and-access core of the kadisoka framework, a Go
identity service. It covers the identifier value objects, identifier generation, the
authorization context, the terminal table and the user key tables, and the small
parsers and builders around them. Most Go files of the core have one Dafny module each;
`id_generation.dfy` gathers the generated service bases' id-num generators and the
application id tool (`tools/app-id-gen/main.go`).

- **Identifiers** (`application_id.dfy`, `user_id.dfy`, `terminal_id.dfy`,
  `session_id.dfy`, `access_key_id.dfy`):
  - Each `*IDNum` is a bit pattern (`bv32` or `bv64`). Its validity and kind predicates are its masks.
  - The azid binary field, binary and text forms and JSON are modelled with their decoders. The decoders report a Go panic (an index past the end of a slice) as an outcome.
  - The `Unmarshal*` methods update a `Ref` cell, as Go assigns through a receiver of pointer type.
- **Generation** (`id_generation.dfy`):
  - The masks that turn random bytes into identifiers.
  - The bounded insert-retry loop that creates an application instance.
- **Authorization** (`authorization.dfy`): the predicates over the context's session,
  terminal, application and user.
- **Terminals** (`terminal_store.dfy`): the terminal table as a class over a map of rows.
  It covers registration checks and rows, authentication, deletion, verification with the
  replay rule, and the outcome of confirming an authorization code.
- **User tables** (`password_hash.dfy`, `profile_image.dfy`, `phone_key.dfy`):
  - The argon2 hash-string codec and the password table.
  - The profile-image URL builder and its table.
  - The SQL value set of phone numbers and the key phone-number table with its constraints.
- **Values** (`email_address.dfy`, `phone_number.dfy`): email addresses and telephone numbers.
- **Enumerations** (`pnv10n.dfy`, `eav10n.dfy`, `oauth2.dfy`): verification methods, and the
  OAuth 2.0 grant types, response types and error codes of RFC 6749.
- **Servers** (`image_server.dfy`, `rest_server.dfy`, `app_config.dfy`,
  `application_store.dfy`):
  - The image server's query parameters, fit and scale names, and colour text.
  - The REST server's paths and its OpenAPI credential clean-up.
  - The application configuration defaults.
  - The static application list read from CSV.
- **Errors** (`errors.dfy`): the repository's own error values and their messages.
- **Helper modules** of the model (`wrappers.dfy`, `strings.dfy`, `decimal.dfy`, `base64.dfy`,
  `azid.dfy`): the Go standard functions the core calls.
  - `strings.Split`, `TrimSpace`, `ToLower`.
  - `strconv` decimal text.
  - Unpadded base64 of RFC 4648, sections 3.2 and 4.
  - Big-endian byte order.

Each database table is a class field: a map of rows or a sequence of rows. Each SQL
`INSERT`/`UPDATE … WHERE` is a function on the rows, and the method that issues it
assigns its result.

Some code works through values the model cannot compute. These are parameters of the operations that use them:
- random bytes and the clock.
- argon2.
- the azid text codec: a codec value with a lawfulness predicate.
- the phone-number library's parse result.
- the verifiers' outcomes.

Predicates that are their own definition have no row of their own; the lemmas about them
do. Examples: a terminal id is valid when its three parts are, and equality is compared part by part.

## Model

| member | source | states |
|---|---|---|
| AzId.BE64RoundTrip | iam/pkg/iam/user__azgen.go:150-154 | a 64-bit value written as eight big-endian bytes reads back as that value, whatever follows |
| AzId.Uint64BEInverse | iam/pkg/iam/user__azgen.go:59-68 | eight bytes read as a big-endian value write back as the same eight bytes |
| Base64.DecodeEncode | pkg/iam/pkg/iamserver/core_user_password.go:23 | decoding in the unpadded standard alphabet gives back every encoded byte string |
| Base64.EncodeHasNoSeparator | pkg/iam/pkg/iamserver/core_user_password.go:23 | encoded text never holds the "$" and "," the hash format separates its fields by |
| ApplicationIds.NumTestVectors | pkg/iam/pkg/iam/application_id_test.go:10-26 | the limits the unit test checks: 0, 0xFFFFFFFF and 0x10000000 are not statically valid; 1, 0xFFFF, 0xFFFFFF, 0x7FFFFFFF, 0x01000000, 0x01000001 and 0x01FFFFFF are; 0x40000001 is first-party |
| ApplicationIds.ServiceXorUserAgent | iam/pkg/iam/application__azgen.go:217-250 | a statically valid id-num is a service exactly when it is not a user agent |
| ApplicationIds.PublicConfidentialExclusive | iam/pkg/iam/application__azgen.go:268-299 | no id-num has both the public and the confidential user-agent bits; each implies the user-agent bit; a valid id-num is a user agent exactly when it is a public or a confidential one |
| ApplicationIds.UserAgentBitsSplit | iam/pkg/iam/application__azgen.go:246-299 | the user-agent bit is set exactly when the two authorization bits read public or confidential |
| ApplicationIds.EmbeddedFieldsOutsideIdentifier | iam/pkg/iam/application__azgen.go:166-179 | the embedded-field masks are disjoint from the identifier bits, and first-party together with the authorization mask is the whole embedded-field mask |
| ApplicationIds.NumAZIDBinField | iam/pkg/iam/application__azgen.go:147-151 | the field is four bytes with the Int32 type |
| ApplicationIds.NumFromAZIDBinField | iam/pkg/iam/application__azgen.go:60-69 | a type hint other than unspecified or Int32 is refused with readLen 0; otherwise fewer than four bytes panic (the slice index) and four or more read four bytes without error |
| ApplicationIds.NumBinFieldRoundTrip | iam/pkg/iam/application__azgen.go:60-69 | decoding the encoded field, followed by anything, gives the id-num back with readLen 4 |
| ApplicationIds.NumBinFieldDecodeInverse | iam/pkg/iam/application__azgen.go:60-69 | re-encoding a decoded id-num gives the four bytes that were read |
| ApplicationIds.NumUnmarshalAZIDBinField | iam/pkg/iam/application__azgen.go:155-163 | returns the decoder's readLen and error and assigns the id-num only when there is no error |
| ApplicationIds.ApplicationID.IDNumPtr | iam/pkg/iam/application__azgen.go:354-360 | nil exactly for an id that is not statically valid, otherwise its id-num |
| ApplicationIds.ApplicationID.AZIDBin | iam/pkg/iam/application__azgen.go:408-413 | five bytes: the Int32 type byte, then the id-num field |
| ApplicationIds.ApplicationID.AZIDBinField | iam/pkg/iam/application__azgen.go:445-447 | the id's field is its id-num's field |
| ApplicationIds.ApplicationID.AZIDText | iam/pkg/iam/application__azgen.go:475-482 | empty exactly for an id that is not statically valid; otherwise starts with "KAp0" |
| ApplicationIds.ApplicationID.MarshalJSON | iam/pkg/iam/application__azgen.go:533-536 | the text form between double quotes |
| ApplicationIds.FromAZIDBinField | iam/pkg/iam/application__azgen.go:449-457 | panics exactly when the id-num decoder does; the zero id with the decoder's error, or the id of the decoded id-num |
| ApplicationIds.FromAZIDBin | iam/pkg/iam/application__azgen.go:415-433 | empty input panics; an unknown type byte or a type other than Int32 gives the zero id, readLen 0 and the wrapped error; success reads five bytes that are the id's binary form |
| ApplicationIds.BinRoundTrip | iam/pkg/iam/application__azgen.go:408-433 | decoding the binary form, followed by anything, gives the id back with readLen 5 |
| ApplicationIds.BinFieldRoundTrip | iam/pkg/iam/application__azgen.go:445-457 | decoding the id's field gives the id back with readLen 4 |
| ApplicationIds.FromAZIDText | iam/pkg/iam/application__azgen.go:486-506 | "" is the zero id without error; text without the "KAp0" prefix is refused as a prefix mismatch; every error comes with the zero id |
| ApplicationIds.TextRoundTrip | iam/pkg/iam/application__azgen.go:475-506 | for a codec whose decoding inverts its encoding, the text form decodes to the id when it is valid and to the zero id otherwise, without error |
| ApplicationIds.FromJSON | iam/pkg/iam/application__azgen.go:539-550 | text that is empty once its quotes are trimmed is the zero id without error |
| ApplicationIds.JSONRoundTrip | iam/pkg/iam/application__azgen.go:533-550 | the JSON form decodes to the id when it is valid and to the zero id otherwise |
| ApplicationIds.UnmarshalAZIDBinField | iam/pkg/iam/application__azgen.go:461-469 | returns the decoder's readLen and error and assigns the id only on success |
| ApplicationIds.UnmarshalAZIDBin | iam/pkg/iam/application__azgen.go:437-443 | returns the decoder's readLen and error and assigns the id only on success |
| ApplicationIds.UnmarshalAZIDText | iam/pkg/iam/application__azgen.go:510-530 | returns the parser's error and assigns the id only on success |
| ApplicationIds.UnmarshalJSON | iam/pkg/iam/application__azgen.go:539-550 | assigns the zero id for an empty string; otherwise returns the parser's error and assigns only on success |
| ApplicationIds.InstanceActiveIffNotDeleted | iam/pkg/iam/application__azgen.go:610-619 | an instance is active exactly when it has no deletion marked deleted; one without deletion information is active |
| UserIds.NumTestVectors | pkg/iam/pkg/iam/user_id_test.go:10-37 | the limits and field encodings the unit tests check: 0 and -1 (all bits set) are invalid, 1 and 0xFFFF valid, 0x0001000000000000 over the limit, 2^32 valid and not a bot; the zero and all-ones id-nums encode to eight 0x00 and eight 0xFF bytes typed Int64 |
| UserIds.BotBit | iam/pkg/iam/user__azgen.go:181-191 | an id-num is a bot exactly when it is statically valid and has bit 62 set |
| UserIds.BotBitOutsideIdentifier | iam/pkg/iam/user__azgen.go:169-173 | the bot mask is disjoint from the identifier bits and is the whole embedded-field mask |
| UserIds.NumAZIDBinField | iam/pkg/iam/user__azgen.go:150-154 | the field is eight bytes with the Int64 type |
| UserIds.NumFromAZIDBinField | iam/pkg/iam/user__azgen.go:59-68 | a type hint other than unspecified or Int64 is refused with readLen 0; otherwise fewer than eight bytes panic and eight or more read eight bytes without error |
| UserIds.NumBinFieldRoundTrip | iam/pkg/iam/user__azgen.go:59-68 | decoding the encoded field, followed by anything, gives the id-num back with readLen 8 |
| UserIds.NumBinFieldDecodeInverse | iam/pkg/iam/user__azgen.go:59-68 | re-encoding a decoded id-num gives the eight bytes that were read |
| UserIds.NumUnmarshalAZIDBinField | iam/pkg/iam/user__azgen.go:158-166 | returns the decoder's readLen and error and assigns the id-num only when there is no error |
| UserIds.UserID.IDNumPtr | iam/pkg/iam/user__azgen.go:247-253 | nil exactly for an id that is not statically valid, otherwise its id-num |
| UserIds.UserID.AZIDBin | iam/pkg/iam/user__azgen.go:307-312 | nine bytes: the Int64 type byte, then the id-num field |
| UserIds.UserID.AZIDBinField | iam/pkg/iam/user__azgen.go:344-346 | the id's field is its id-num's field |
| UserIds.UserID.AZIDText | iam/pkg/iam/user__azgen.go:374-381 | empty exactly for an id that is not statically valid; otherwise starts with the user prefix |
| UserIds.UserID.MarshalJSON | iam/pkg/iam/user__azgen.go:432-435 | the text form between double quotes |
| UserIds.FromAZIDBinField | iam/pkg/iam/user__azgen.go:348-356 | panics exactly when the id-num decoder does; the zero id with the decoder's error, or the id of the decoded id-num |
| UserIds.FromAZIDBin | iam/pkg/iam/user__azgen.go:314-332 | empty input panics; an unknown type byte or a type other than Int64 gives the zero id, readLen 0 and the wrapped error; success reads nine bytes that are the id's binary form |
| UserIds.BinRoundTrip | iam/pkg/iam/user__azgen.go:307-332 | decoding the binary form, followed by anything, gives the id back with readLen 9 |
| UserIds.BinFieldRoundTrip | iam/pkg/iam/user__azgen.go:344-356 | decoding the id's field gives the id back with readLen 8 |
| UserIds.FromAZIDText | iam/pkg/iam/user__azgen.go:385-405 | "" is the zero id without error; text without the prefix is refused as a prefix mismatch; every error comes with the zero id |
| UserIds.TextRoundTrip | iam/pkg/iam/user__azgen.go:374-405 | for a codec whose decoding inverts its encoding, the text form decodes to the id when it is valid and to the zero id otherwise |
| UserIds.FromJSON | iam/pkg/iam/user__azgen.go:438-449 | text that is empty once its quotes are trimmed is the zero id without error |
| UserIds.JSONRoundTrip | iam/pkg/iam/user__azgen.go:432-449 | the JSON form decodes to the id when it is valid and to the zero id otherwise |
| UserIds.UnmarshalAZIDBinField | iam/pkg/iam/user__azgen.go:360-368 | returns the decoder's readLen and error and assigns the id only on success |
| UserIds.UnmarshalAZIDBin | iam/pkg/iam/user__azgen.go:336-342 | returns the decoder's readLen and error and assigns the id only on success |
| UserIds.UnmarshalAZIDText | iam/pkg/iam/user__azgen.go:409-429 | returns the parser's error and assigns the id only on success |
| UserIds.UnmarshalJSON | iam/pkg/iam/user__azgen.go:438-449 | assigns the zero id for an empty string; otherwise returns the parser's error and assigns only on success |
| UserIds.InstanceActiveIffNotDeleted | iam/pkg/iam/user__azgen.go:509-518 | an instance is active exactly when it has no deletion marked deleted |
| TerminalIds.NumValidityExamples | iam/pkg/iam/terminal__azgen.go:537-540 | 1 and 0x00FFFFFFFFFFFFFF are valid; 0, 0x0100000000000000 (only a bit outside the identifier bits) and a negative value are not |
| TerminalIds.NumAZIDBinField | iam/pkg/iam/terminal__azgen.go:577-581 | the field is eight bytes with the Int64 type |
| TerminalIds.NumFromAZIDBinField | iam/pkg/iam/terminal__azgen.go:497-506 | a type hint other than unspecified or Int64 is refused with readLen 0; otherwise fewer than eight bytes panic and eight or more read eight bytes without error |
| TerminalIds.NumBinFieldRoundTrip | iam/pkg/iam/terminal__azgen.go:497-506 | decoding the encoded field, followed by anything, gives the id-num back with readLen 8 |
| TerminalIds.NumBinFieldDecodeInverse | iam/pkg/iam/terminal__azgen.go:497-506 | re-encoding a decoded id-num gives the eight bytes that were read |
| TerminalIds.NumUnmarshalAZIDBinField | iam/pkg/iam/terminal__azgen.go:585-593 | returns the decoder's readLen and error and assigns the id-num only when there is no error |
| TerminalIds.TerminalID.IDNumPtr | iam/pkg/iam/terminal__azgen.go:112-118 | nil exactly for a terminal id that is not statically valid (application, user and id-num all valid), otherwise its id-num |
| TerminalIds.TerminalID.ApplicationPtr | iam/pkg/iam/terminal__azgen.go:405-411 | nil exactly when the application id is not statically valid, otherwise the application id |
| TerminalIds.TerminalID.WithApplication | iam/pkg/iam/terminal__azgen.go:416-424 | a copy with the given application and the same user and id-num |
| TerminalIds.TerminalID.UserPtr | iam/pkg/iam/terminal__azgen.go:433-439 | nil exactly when the user id is not statically valid, otherwise the user id |
| TerminalIds.TerminalID.WithUser | iam/pkg/iam/terminal__azgen.go:444-452 | a copy with the given user and the same application and id-num |
| TerminalIds.TerminalID.AZIDBinField | iam/pkg/iam/terminal__azgen.go:211-233 | 24 bytes typed Array: the count 3, the type bytes Int32, Int64, Int64, then the application's, the user's and the id-num's fields |
| TerminalIds.TerminalID.AZIDBin | iam/pkg/iam/terminal__azgen.go:184-188 | 25 bytes: the Array type byte, then the field form |
| TerminalIds.TerminalID.AZIDText | iam/pkg/iam/terminal__azgen.go:321-328 | empty exactly for an id that is not statically valid; otherwise starts with the terminal prefix |
| TerminalIds.TerminalID.MarshalJSON | iam/pkg/iam/terminal__azgen.go:379-382 | the text form between double quotes |
| TerminalIds.NewTerminalID | iam/pkg/iam/terminal__azgen.go:62-72 | the id of the given application, user and id-num |
| TerminalIds.ZeroUserHasNoText | iam/pkg/iam/terminal__azgen.go:141-145 | a terminal id with the zero user is not statically valid, has no text form and no id-num pointer |
| TerminalIds.EncodeAZIDBinField | iam/pkg/iam/terminal__azgen.go:211-233 | the encoder that appends type and data bytes field by field produces exactly the field form |
| TerminalIds.FromAZIDBinField | iam/pkg/iam/terminal__azgen.go:237-303 | a type hint other than Array is refused; empty input panics; a count byte other than 3 is a field count mismatch; every error comes with the zero id and readLen 0; success reads 24 bytes |
| TerminalIds.DecodeUserField | iam/pkg/iam/terminal__azgen.go:269-303 | reading the user field at the data cursor: errors come with the zero id and readLen 0; success reads 16 more bytes |
| TerminalIds.DecodeIDNumField | iam/pkg/iam/terminal__azgen.go:283-303 | reading the id-num field at the data cursor: errors come with the zero id and readLen 0; success reads 8 more bytes |
| TerminalIds.DecodeAZIDBinField | iam/pkg/iam/terminal__azgen.go:237-303 | the decoder with its type cursor and data cursor returns what FromAZIDBinField states |
| TerminalIds.DecodeFields | iam/pkg/iam/terminal__azgen.go:237-303 | with each type byte either its canonical tag or unspecified, the field decoder reads the data bytes back into the id, whatever follows them |
| TerminalIds.BinFieldRoundTrip | iam/pkg/iam/terminal__azgen.go:211-303 | decoding the field form, followed by anything, gives the id back with readLen 24 |
| TerminalIds.BinFieldDecodeInverse | iam/pkg/iam/terminal__azgen.go:237-303 | a successful decode read the count 3, type bytes that are each canonical or unspecified, and data bytes that re-encode the decoded id |
| TerminalIds.UnspecifiedTagsAccepted | iam/pkg/iam/terminal__azgen.go:237-303 | a type row of three unspecified tags decodes like the canonical one, so two inputs decode to the same id |
| TerminalIds.FromAZIDBin | iam/pkg/iam/terminal__azgen.go:192-207 | empty input panics; an unknown type byte or a type other than Array gives the zero id with readLen 0; otherwise the field decoder's result with one more byte read, error or not |
| TerminalIds.FromAZIDBinErrorReadLen | iam/pkg/iam/terminal__azgen.go:192-207 | a bad field count behind a good type byte reports readLen 1 with the field decoder's own error, unwrapped |
| TerminalIds.BinRoundTrip | iam/pkg/iam/terminal__azgen.go:184-207 | decoding the binary form, followed by anything, gives the id back with readLen 25 |
| TerminalIds.FromAZIDText | iam/pkg/iam/terminal__azgen.go:332-352 | "" is the zero id without error; text without the prefix is a prefix mismatch; every error comes with the zero id |
| TerminalIds.TextRoundTrip | iam/pkg/iam/terminal__azgen.go:321-352 | for a codec whose decoding inverts its encoding, the text form decodes to the id when it is valid and to the zero id otherwise |
| TerminalIds.FromJSON | iam/pkg/iam/terminal__azgen.go:385-396 | text that is empty once its quotes are trimmed is the zero id without error |
| TerminalIds.JSONRoundTrip | iam/pkg/iam/terminal__azgen.go:379-396 | the JSON form decodes to the id when it is valid and to the zero id otherwise |
| TerminalIds.UnmarshalAZIDBinField | iam/pkg/iam/terminal__azgen.go:307-315 | returns the decoder's readLen and error and assigns the id only on success |
| TerminalIds.UnmarshalAZIDText | iam/pkg/iam/terminal__azgen.go:356-376 | returns the parser's error and assigns the id only on success |
| TerminalIds.UnmarshalJSON | iam/pkg/iam/terminal__azgen.go:385-396 | assigns the zero id for an empty string; otherwise returns the parser's error and assigns only on success |
| SessionIds.NumValidityExamples | pkg/iam/pkg/iam/session__azgen.go:472-475 | 1 and 0x00FFFFFF are valid; 0, 0x01000000 (only a bit outside the identifier bits) and a negative value are not |
| SessionIds.NumAZIDBinField | pkg/iam/pkg/iam/session__azgen.go:512-516 | the field is four bytes with the Int32 type |
| SessionIds.NumFromAZIDBinField | pkg/iam/pkg/iam/session__azgen.go:432-441 | a type hint other than unspecified or Int32 is refused with readLen 0; otherwise fewer than four bytes panic and four or more read four bytes without error |
| SessionIds.NumBinFieldRoundTrip | pkg/iam/pkg/iam/session__azgen.go:432-441 | decoding the encoded field, followed by anything, gives the id-num back with readLen 4 |
| SessionIds.NumBinFieldDecodeInverse | pkg/iam/pkg/iam/session__azgen.go:432-441 | re-encoding a decoded id-num gives the four bytes that were read |
| SessionIds.NumUnmarshalAZIDBinField | pkg/iam/pkg/iam/session__azgen.go:520-528 | returns the decoder's readLen and error and assigns the id-num only when there is no error |
| SessionIds.SessionID.IDNumPtr | pkg/iam/pkg/iam/session__azgen.go:100-106 | nil exactly for a session id that is not statically valid (terminal and id-num valid), otherwise its id-num |
| SessionIds.SessionID.TerminalPtr | pkg/iam/pkg/iam/session__azgen.go:369-375 | nil exactly when the terminal id is not statically valid, otherwise the terminal id |
| SessionIds.SessionID.WithTerminal | pkg/iam/pkg/iam/session__azgen.go:380-387 | a copy with the given terminal and the same id-num |
| SessionIds.SessionID.AZIDBinField | pkg/iam/pkg/iam/session__azgen.go:194-212 | 31 bytes typed Array: the count 2, the type bytes Array and Int32, the terminal's 24-byte field, then the id-num's field |
| SessionIds.SessionID.AZIDBin | pkg/iam/pkg/iam/session__azgen.go:167-171 | 32 bytes: the Array type byte, then the field form |
| SessionIds.SessionID.AZIDText | pkg/iam/pkg/iam/session__azgen.go:285-292 | empty exactly for an id that is not statically valid; otherwise starts with "KSe0" |
| SessionIds.SessionID.MarshalJSON | pkg/iam/pkg/iam/session__azgen.go:343-346 | the text form between double quotes |
| SessionIds.ValidSessionHasUser | pkg/iam/pkg/iam/session__azgen.go:128-131 | a valid session's terminal has a valid user and a valid application |
| SessionIds.EncodeAZIDBinField | pkg/iam/pkg/iam/session__azgen.go:194-212 | the encoder that appends type and data bytes field by field produces exactly the field form |
| SessionIds.FromAZIDBinField | pkg/iam/pkg/iam/session__azgen.go:216-267 | a type hint other than Array is refused; empty input panics; a count byte other than 2 is a field count mismatch; every error comes with the zero id and readLen 0; success reads 31 bytes |
| SessionIds.DecodeIDNumField | pkg/iam/pkg/iam/session__azgen.go:249-267 | reading the id-num field at the data cursor: errors come with the zero id and readLen 0; success reads 4 more bytes |
| SessionIds.DecodeAZIDBinField | pkg/iam/pkg/iam/session__azgen.go:216-267 | the decoder with its type cursor and data cursor returns what FromAZIDBinField states |
| SessionIds.BinFieldDecodeInverse | pkg/iam/pkg/iam/session__azgen.go:216-267 | a successful decode read the count 2, the Array tag, an id-num tag that is Int32 or unspecified, terminal tags that are each canonical or unspecified, and data bytes that re-encode the decoded id |
| SessionIds.BinFieldRoundTrip | pkg/iam/pkg/iam/session__azgen.go:194-267 | decoding the field form, followed by anything, gives the id back with readLen 31 |
| SessionIds.FromAZIDBin | pkg/iam/pkg/iam/session__azgen.go:175-190 | empty input panics; an unknown type byte or a type other than Array gives the zero id with readLen 0; otherwise the field decoder's result with one more byte read |
| SessionIds.BinRoundTrip | pkg/iam/pkg/iam/session__azgen.go:167-190 | decoding the binary form, followed by anything, gives the id back with readLen 32 |
| SessionIds.FromAZIDText | pkg/iam/pkg/iam/session__azgen.go:296-316 | "" is the zero id without error; text without the prefix is a prefix mismatch; every error comes with the zero id |
| SessionIds.TextRoundTrip | pkg/iam/pkg/iam/session__azgen.go:285-316 | for a codec whose decoding inverts its encoding, the text form decodes to the id when it is valid and to the zero id otherwise |
| SessionIds.FromJSON | pkg/iam/pkg/iam/session__azgen.go:349-360 | text that is empty once its quotes are trimmed is the zero id without error |
| SessionIds.JSONRoundTrip | pkg/iam/pkg/iam/session__azgen.go:343-360 | the JSON form decodes to the id when it is valid and to the zero id otherwise |
| SessionIds.UnmarshalAZIDBinField | pkg/iam/pkg/iam/session__azgen.go:271-279 | returns the decoder's readLen and error and assigns the id only on success |
| SessionIds.UnmarshalAZIDText | pkg/iam/pkg/iam/session__azgen.go:320-340 | returns the parser's error and assigns the id only on success |
| SessionIds.UnmarshalJSON | pkg/iam/pkg/iam/session__azgen.go:349-360 | assigns the zero id for an empty string; otherwise returns the parser's error and assigns only on success |
| ApplicationAccessKeyIds.NumValidityExamples | iam/pkg/iam/application_access_key__azgen.go:95-98 | 1 and 0x00FFFFFFFFFFFFFF are valid; 0, 0x0100000000000000 and a negative value are not |
| ApplicationAccessKeyIds.NumAZIDBinField | iam/pkg/iam/application_access_key__azgen.go:135-139 | the field is eight bytes with the Int64 type |
| ApplicationAccessKeyIds.NumFromAZIDBinField | iam/pkg/iam/application_access_key__azgen.go:59-68 | a type hint other than unspecified or Int64 is refused with readLen 0; otherwise fewer than eight bytes panic and eight or more read eight bytes without error |
| ApplicationAccessKeyIds.NumBinFieldRoundTrip | iam/pkg/iam/application_access_key__azgen.go:59-68 | decoding the encoded field, followed by anything, gives the id-num back with readLen 8 |
| ApplicationAccessKeyIds.NumBinFieldDecodeInverse | iam/pkg/iam/application_access_key__azgen.go:59-68 | re-encoding a decoded id-num gives the eight bytes that were read |
| ApplicationAccessKeyIds.NumUnmarshalAZIDBinField | iam/pkg/iam/application_access_key__azgen.go:143-151 | returns the decoder's readLen and error and assigns the id-num only when there is no error |
| ApplicationAccessKeyIds.ApplicationAccessKeyID.IDNumPtr | iam/pkg/iam/application_access_key__azgen.go:220-226 | nil exactly for a key id that is not statically valid (application and id-num valid), otherwise its id-num |
| ApplicationAccessKeyIds.ApplicationAccessKeyID.ApplicationPtr | iam/pkg/iam/application_access_key__azgen.go:483-489 | nil exactly when the application id is not statically valid, otherwise the application id |
| ApplicationAccessKeyIds.ApplicationAccessKeyID.WithApplication | iam/pkg/iam/application_access_key__azgen.go:494-501 | a copy with the given application and the same id-num |
| ApplicationAccessKeyIds.ApplicationAccessKeyID.AZIDBinField | iam/pkg/iam/application_access_key__azgen.go:308-326 | 15 bytes typed Array: the count 2, the type bytes Int32 and Int64, the application's field, then the id-num's field |
| ApplicationAccessKeyIds.ApplicationAccessKeyID.AZIDBin | iam/pkg/iam/application_access_key__azgen.go:281-285 | 16 bytes: the Array type byte, then the field form |
| ApplicationAccessKeyIds.ApplicationAccessKeyID.AZIDText | iam/pkg/iam/application_access_key__azgen.go:399-406 | empty exactly for an id that is not statically valid; otherwise starts with the key prefix |
| ApplicationAccessKeyIds.ApplicationAccessKeyID.MarshalJSON | iam/pkg/iam/application_access_key__azgen.go:457-460 | the text form between double quotes |
| ApplicationAccessKeyIds.EncodeAZIDBinField | iam/pkg/iam/application_access_key__azgen.go:308-326 | the encoder that appends type and data bytes field by field produces exactly the field form |
| ApplicationAccessKeyIds.FromAZIDBinField | iam/pkg/iam/application_access_key__azgen.go:330-381 | a type hint other than Array is refused; empty input panics; a count byte other than 2 is a field count mismatch; every error comes with the zero id and readLen 0; success reads 15 bytes |
| ApplicationAccessKeyIds.DecodeIDNumField | iam/pkg/iam/application_access_key__azgen.go:363-381 | reading the id-num field at the data cursor: errors come with the zero id and readLen 0; success reads 8 more bytes |
| ApplicationAccessKeyIds.DecodeAZIDBinField | iam/pkg/iam/application_access_key__azgen.go:330-381 | the decoder with its type cursor and data cursor returns what FromAZIDBinField states |
| ApplicationAccessKeyIds.BinFieldDecodeInverse | iam/pkg/iam/application_access_key__azgen.go:330-381 | a successful decode read the count 2, type bytes that are each canonical or unspecified, and data bytes that re-encode the decoded id |
| ApplicationAccessKeyIds.BinFieldRoundTrip | iam/pkg/iam/application_access_key__azgen.go:308-381 | decoding the field form, followed by anything, gives the id back with readLen 15 |
| ApplicationAccessKeyIds.FromAZIDBin | iam/pkg/iam/application_access_key__azgen.go:289-304 | empty input panics; an unknown type byte or a type other than Array gives the zero id with readLen 0; otherwise the field decoder's result with one more byte read |
| ApplicationAccessKeyIds.BinRoundTrip | iam/pkg/iam/application_access_key__azgen.go:281-304 | decoding the binary form, followed by anything, gives the id back with readLen 16 |
| ApplicationAccessKeyIds.FromAZIDText | iam/pkg/iam/application_access_key__azgen.go:410-430 | "" is the zero id without error; text without the prefix is a prefix mismatch; every error comes with the zero id |
| ApplicationAccessKeyIds.TextRoundTrip | iam/pkg/iam/application_access_key__azgen.go:399-430 | for a codec whose decoding inverts its encoding, the text form decodes to the id when it is valid and to the zero id otherwise |
| ApplicationAccessKeyIds.FromJSON | iam/pkg/iam/application_access_key__azgen.go:463-474 | text that is empty once its quotes are trimmed is the zero id without error |
| ApplicationAccessKeyIds.JSONRoundTrip | iam/pkg/iam/application_access_key__azgen.go:457-474 | the JSON form decodes to the id when it is valid and to the zero id otherwise |
| ApplicationAccessKeyIds.UnmarshalAZIDBinField | iam/pkg/iam/application_access_key__azgen.go:385-393 | returns the decoder's readLen and error and assigns the id only on success |
| ApplicationAccessKeyIds.UnmarshalAZIDText | iam/pkg/iam/application_access_key__azgen.go:434-454 | returns the parser's error and assigns the id only on success |
| ApplicationAccessKeyIds.UnmarshalJSON | iam/pkg/iam/application_access_key__azgen.go:463-474 | assigns the zero id for an empty string; otherwise returns the parser's error and assigns only on success |
| Errors.Ent | pkg/errors/entity.go:18-23 | the result is an entity error carrying the given identifier; its text can be formed exactly when the wrapped error is non-nil and printable |
| Errors.EntMsg | pkg/errors/entity.go:27-32 | the result is an entity error with the given identifier whose text can always be formed |
| Errors.EntityMessageShape | pkg/errors/entity.go:45-57 | an entity error's text starts with the identifier (or "entity " without one) and ends with the cause's text (or " invalid" when that is empty) |
| Errors.EntMsgShowsMessage | pkg/errors/entity.go:27-57 | EntMsg reads "id: msg" with an identifier, "entity msg" without one, and "entity invalid" when both are empty |
| Errors.WrapError | pkg/errors/errors.go:36-38 | Wrap never gives nil, Unwrap of it gives back exactly the cause, and its text can be formed unless a non-empty message meets an unprintable cause |
| Errors.WrapMessage | pkg/errors/errors.go:47-54 | a wrap reads "msg: cause" when both are present and the bare message otherwise; it always starts with the message |
| Errors.Unwrap | pkg/errors/errors.go:56-58 | (corrected) Unwrap gives a strictly smaller error, and for a wrap exactly its cause |
| Errors.UnwrapAsWritten | pkg/errors/entity.go:59 | (as written) an entity error unwraps to itself; every other error as Unwrap does |
| Errors.IsFollowsUnwrap | pkg/errors/errors.go:18 | errors.Is holds exactly when the error is the target or its Unwrap chain reaches the target, errors being compared by value (see Left out) |
| Errors.IsFindsCause | pkg/errors/errors.go:18 | with the corrected Unwrap, the cause of an entity error, of a wrap, and of a wrap inside an entity error is found by Is |
| Errors.IsAsWrittenDiverges | pkg/errors/entity.go:59 | with the as-written Unwrap, Is on an entity error and any other target never ends, whatever the step budget |
| Errors.EntityCauseNeverFound | pkg/errors/entity.go:59 | an entity error's own cause is never found by the as-written Is, but is found by the corrected one |
| DataErrors.Err | pkg/errors/data/errors.go:9-17 | the wrapping's text is the wrapped error's text |
| DataErrors.Malformed | pkg/errors/data/errors.go:29-44 | "malformed" without a cause, "malformed: " followed by the cause's text with one |
| DataErrors.SentinelMessages | pkg/errors/data/errors.go:48-52 | ErrEmpty, ErrMalformed and ErrTypeUnsupported read "empty", "malformed" and "type unsupported" |
| Authorizations.TokenLifetimes | pkg/iam/pkg/iam/authorization.go:150-170 | an access token lasts 20 minutes (1200 seconds) and a refresh token 30 days (2592000 seconds) |
| Authorizations.Authorization.ParentSessionID | pkg/iam/pkg/iam/authorization.go:49-54 | the assumed authorization's session, or the zero session when there is none |
| Authorizations.Authorization.UserIDPtr | pkg/iam/pkg/iam/authorization.go:110-114 | nil exactly when the context's user is not statically valid, otherwise that user |
| Authorizations.Authorization.UserIDNumPtr | pkg/iam/pkg/iam/authorization.go:120-124 | nil exactly when the context's user is not statically valid, otherwise its id-num |
| Authorizations.Authorization.TerminalIDNumPtr | pkg/iam/pkg/iam/authorization.go:134-138 | nil exactly when the context's terminal is not statically valid, otherwise its id-num |
| Authorizations.UserSubjectExcludesServiceClient | pkg/iam/pkg/iam/authorization.go:89-104 | no context is both a user subject and a service-client context |
| Authorizations.IsUserAndUserSubject | pkg/iam/pkg/iam/authorization.go:83-96 | IsUser of a valid user implies IsUserSubject; a user subject IsUser of its own user and of no other |
| Authorizations.IsUserOfZeroUser | pkg/iam/pkg/iam/authorization.go:83-87 | IsUser does not check the user's validity: a user-agent context with the zero user IsUser of the zero user but is no user subject |
| Authorizations.IsTerminalFacts | pkg/iam/pkg/iam/authorization.go:77-81 | IsTerminal holds exactly for the context's own valid terminal, whose user is then valid, and never in a service-client context |
| Authorizations.ValidContextParts | pkg/iam/pkg/iam/authorization.go:69-81 | a statically valid context has non-nil terminal id-num and user pointers and IsTerminal of its terminal |
| IdGeneration.GenerateApplicationIDNum | pkg/iam/pkg/iamserver/application_service_server_base__azgen.go:368-380 | fails exactly when the random read fails, with the cause wrapped as "random number source reading" |
| IdGeneration.ApplicationIDNumBits | pkg/iam/pkg/iamserver/application_service_server_base__azgen.go:376-379 | the result carries exactly the requested embedded bits and the random identifier bits; the sign bit and the reserved bits are clear |
| IdGeneration.ApplicationIDNumIgnoresOtherBits | pkg/iam/pkg/iamserver/application_service_server_base__azgen.go:377 | argument bits outside the embedded-fields mask do not change the result |
| IdGeneration.ApplicationIDNumValidity | pkg/iam/pkg/iamserver/application_service_server_base__azgen.go:368-380 | the result is non-negative and statically valid exactly when its random identifier bits are not all zero |
| IdGeneration.ApplicationIDNumPublicUserAgent | pkg/iam/pkg/iamserver/application_service_server_base__azgen.go:377 | asked for the public user-agent bits, a valid result is a public user agent and not first-party |
| IdGeneration.GenerateTerminalIDNum | pkg/iam/pkg/iamserver/terminal_service_server_base__azgen.go:40-52 | fails exactly when the random read fails, with the cause wrapped as "random number source reading" |
| IdGeneration.TerminalIDNumFacts | pkg/iam/pkg/iamserver/terminal_service_server_base__azgen.go:49-51 | whatever the argument, the result is the drawn big-endian value with its top byte cleared, valid exactly when that is non-zero |
| IdGeneration.GenerateSessionIDNum | pkg/iam/pkg/iamserver/session_service_server_base__azgen.go:39-51 | fails exactly when the random read fails, with the cause wrapped as "random number source reading" |
| IdGeneration.SessionIDNumFacts | pkg/iam/pkg/iamserver/session_service_server_base__azgen.go:48-50 | whatever the argument, the result is the drawn big-endian value masked to 24 bits, valid exactly when that is non-zero |
| IdGeneration.AppTypeBits | pkg/iam/tools/app-id-gen/main.go:30-43 | bits are chosen exactly for the seven supported application type names |
| IdGeneration.GenerateApplicationID | pkg/iam/tools/app-id-gen/main.go:29-50 | panics exactly for an unsupported type or a failed random read |
| IdGeneration.GeneratedApplicationKinds | pkg/iam/tools/app-id-gen/main.go:29-50 | a valid generated id is first-party exactly when asked, and a service, public or confidential user agent as its type name says |
| IdGeneration.CreateFrom | pkg/iam/pkg/iamserver/application_service_server_base__azgen.go:187-240 | from a given attempt on, no more inserts than attempts remain, and any returned outcome follows at least one insert |
| IdGeneration.CreateApplicationInstance | pkg/iam/pkg/iamserver/application_service_server_base__azgen.go:187-240 | the retry loop, counting attempts, gives exactly the outcome and insert count of CreateFrom |
| IdGeneration.ConflictsBeforeLastInsert | pkg/iam/pkg/iamserver/application_service_server_base__azgen.go:198-235 | every insert before the last one ended in a primary-key conflict |
| IdGeneration.LastInsertDecides | pkg/iam/pkg/iamserver/application_service_server_base__azgen.go:198-235 | success means the last insert succeeded with the id drawn for it; failure means a non-conflict error or a conflict on attempt 5 |
| IdGeneration.CreationBounded | pkg/iam/pkg/iamserver/application_service_server_base__azgen.go:198-235 | at most six inserts; giving up after a conflict happens only after six conflicts in a row |
| TerminalStore.BoolText | pkg/iam/pkg/iamserver/core_terminal.go:481-483 | "true" exactly for true, otherwise "false" (fmt's %v of a bool in the combination error) |
| TerminalStore.RegistrationCheck | pkg/iam/pkg/iamserver/core_terminal.go:448-490 | passes exactly for a valid application, a zero or valid user, an application that exists, and a valid user exactly when the application is a user agent; an invalid application ID is reported first, a lookup error is wrapped as "ApplicationByID" |
| TerminalStore.RegisteredCombinations | pkg/iam/pkg/iamserver/core_terminal.go:476-490 | a registration that passed the checks is a user agent with a valid user, or a service with the zero user |
| TerminalStore.NewRow | pkg/iam/pkg/iamserver/core_terminal.go:495-564 | the inserted row holds the new secret and is verified at once exactly for the OAuth client-credentials and password flows; otherwise no secret and unverified; the display name is trimmed; the row is live |
| TerminalStore.TerminalTable.constructor | pkg/iam/pkg/iamserver/core_terminal.go:495-564 | an empty terminal table, in which every verified row holds a secret |
| TerminalStore.TerminalTable.AuthenticateTerminal | pkg/iam/pkg/iamserver/core_terminal.go:24-56 | a missing, deleted or unverified terminal is refused with the zero user; otherwise authenticated exactly when the secret matches, with the row's user as owner |
| TerminalStore.TerminalTable.EmptySecretNeverAuthenticates | pkg/iam/pkg/iamserver/core_terminal.go:24-56 | in a table whose verified rows hold secrets, the empty secret authenticates no terminal |
| TerminalStore.TerminalTable.RegisterTerminal | pkg/iam/pkg/iamserver/core_terminal.go:448-564 | a failed check or id read changes nothing; a taken id-num is a duplicate-key error; otherwise exactly one new row is added and the returned terminal authenticates with the returned secret when the flow generates one, and with no secret otherwise |
| TerminalStore.TerminalTable.DeleteTerminal | pkg/iam/pkg/iamserver/core_terminal.go:566-610 | a terminal other than the context's own is refused with operation not allowed; a live row is marked deleted by the context's terminal and user, and the state change is reported exactly then; afterwards the terminal never authenticates |
| TerminalStore.TerminalTable.SetTerminalVerified | pkg/iam/pkg/iamserver/core_terminal.go:613-667 | an unverified row gets the new secret and time; otherwise nothing changes, a replay is refused when disallowed and the stored secret is returned when allowed (a missing row panics); a returned secret is the verified row's non-empty secret |
| TerminalStore.TerminalTable.ConfirmTerminalAuthorization | pkg/iam/pkg/iamserver/core_terminal.go:232-366 | an unknown terminal is a reference error; for a valid user, a code mismatch, an expired code and a resource taken by another user are their errors, a verifier failure panics, and an unsupported verification type panics; otherwise (no valid user, an authorization code, or an accepted e-mail or phone code) an unverified row gets the new secret and time and the result is that secret and the row's user; a verified row is "already claimed" for an authorization code and otherwise returns its stored secret unchanged; a failure or panic changes nothing |
| TerminalStore.CodeOutcome | pkg/iam/pkg/iamserver/core_terminal.go:255-346 | the confirmation goes on exactly when the code was accepted and the resource is not claimed by another user |
| PasswordHashes.DefaultParamsField | pkg/iam/pkg/iamserver/core_user_password.go:34-40 | the default parameters are written "m=65536,t=3,p=2" |
| PasswordHashes.EncodePasswordHash | pkg/iam/pkg/iamserver/core_user_password.go:136-143 | the hash string starts with "$argon2id$v=19$" and the parameter field, then a "$" |
| PasswordHashes.EncodeJoinsFields | pkg/iam/pkg/iamserver/core_user_password.go:140-143 | the hash string is its six fields ("", "argon2id", the version, the parameters, the salt, the key) joined by "$" |
| PasswordHashes.HashFieldsHaveNoSeparator | pkg/iam/pkg/iamserver/core_user_password.go:136-143 | no field, the base64 salt and key included, holds a "$" |
| PasswordHashes.HashPassword | pkg/iam/pkg/iamserver/core_user_password.go:115-155 | a failed salt read is returned as is; otherwise a hash string that starts with "$argon2id$v=19$m=65536,t=3,p=2$" |
| PasswordHashes.ScanLiteral | pkg/iam/pkg/iamserver/core_user_password.go:193 | succeeds exactly when the text starts with the literal, leaving what follows it; otherwise a format mismatch |
| PasswordHashes.ScanUnsigned | pkg/iam/pkg/iamserver/core_user_password.go:203-205 | a success is the value of a non-empty maximal run of leading digits, below the variable's limit, with the rest left over; no leading digit is a format mismatch |
| PasswordHashes.ScanInt | pkg/iam/pkg/iamserver/core_user_password.go:193 | a success lies within the int64 range; text that starts with neither a digit nor a sign is a format mismatch |
| PasswordHashes.ScanParams | pkg/iam/pkg/iamserver/core_user_password.go:202-208 | a success has memory and iterations below 2^32, parallelism below 256 and both lengths still zero |
| PasswordHashes.DecodeBase64 | pkg/iam/pkg/iamserver/core_user_password.go:210-220 | succeeds exactly when the field is unpadded standard base64, with the decoded bytes |
| PasswordHashes.DecodePasswordHash | pkg/iam/pkg/iamserver/core_user_password.go:183-225 | a field count other than six is "hash format invalid"; a success has in-range parameters, salt and key lengths equal to the decoded lengths taken modulo 2^32, and the salt and key decoded from fields 4 and 5 |
| PasswordHashes.VersionChecked | pkg/iam/pkg/iamserver/core_user_password.go:192-200 | a version other than 19 is "hash version incompatible" |
| PasswordHashes.ScanUnsignedFormat | pkg/iam/pkg/iamserver/core_user_password.go:203-205 | a number written in decimal and followed by a non-digit scans back to itself |
| PasswordHashes.ScanParamsFormat | pkg/iam/pkg/iamserver/core_user_password.go:140-143 | the written parameter field of in-range parameters scans back to them, with the lengths zero |
| PasswordHashes.ScanVersionFormat | pkg/iam/pkg/iamserver/core_user_password.go:140-143 | the written version field "v=19" scans back to 19 |
| PasswordHashes.DecodeEncodePasswordHash | pkg/iam/pkg/iamserver/core_user_password.go:136-225 | decoding a hash string gives back its parameters, salt and key, with the salt and key lengths set from them |
| PasswordHashes.MatchPasswordAndPasswordHash | pkg/iam/pkg/iamserver/core_user_password.go:157-181 | an empty hash never matches and is no error; a hash that does not decode is its error; otherwise a match exactly when the password derives the stored key with the stored salt and parameters |
| PasswordHashes.HashThenMatch | pkg/iam/pkg/iamserver/core_user_password.go:115-181 | a hash made from a password matches that password without error |
| PasswordHashes.OtherPasswordMatch | pkg/iam/pkg/iamserver/core_user_password.go:115-181 | another password matches a hash exactly when it derives the same key with the same salt |
| PasswordHashes.DeleteLiveRows | pkg/iam/pkg/iamserver/core_user_password.go:62-67 | the UPDATE keeps every row's user and hash, leaves no live row of the user, and does not touch other users' rows |
| PasswordHashes.LiveHash | pkg/iam/pkg/iamserver/core_user_password.go:95-113 | "" when the user has no live row; otherwise the hash of one of the user's live rows |
| PasswordHashes.LiveHashOfOnlyRow | pkg/iam/pkg/iamserver/core_user_password.go:95-113 | with exactly one live row of the user, its hash is the one read |
| PasswordHashes.LiveHashOfOtherUser | pkg/iam/pkg/iamserver/core_user_password.go:95-113 | the hash read for a user does not change when the user's rows do not change and the added rows belong to others |
| PasswordHashes.ReplaceKeepsOneLiveRow | pkg/iam/pkg/iamserver/core_user_password.go:61-78 | soft-deleting the user's live rows and adding one row of theirs keeps at most one live row per user |
| PasswordHashes.UserPasswordTable.constructor | pkg/iam/pkg/iamserver/core_user_password.go:42 | an empty password table, with at most one live row per user |
| PasswordHashes.UserPasswordTable.GetUserPasswordHash | pkg/iam/pkg/iamserver/core_user_password.go:95-113 | "" when the user has no live row (the no-rows case); otherwise the hash of one of the user's live rows |
| PasswordHashes.UserPasswordTable.MatchUserPassword | pkg/iam/pkg/iamserver/core_user_password.go:81-93 | a user without a stored hash matches exactly the empty password; otherwise the matching rules of the stored hash apply |
| PasswordHashes.UserPasswordTable.SetUserPassword | pkg/iam/pkg/iamserver/core_user_password.go:44-79 | anyone but the user themself is refused; a failed salt read changes nothing; otherwise the live row is soft-deleted and one new row added, so the user keeps one live row, the new hash is the one read back, and no other user's hash changes |
| ProfileImages.BuildUserProfileImageURL | pkg/iam/pkg/iamserver/core_user_profile_image.go:115-131 | an absolute http(s) key, or a key with no base URL, is given out as it is; any other key is put under the base with exactly one "/" between them; the result always ends with the key |
| ProfileImages.SlashKeyAppended | pkg/iam/pkg/iamserver/core_user_profile_image.go:122-124 | a key that starts with "/" is appended to the base, less one trailing "/", as it is |
| ProfileImages.BaseComesFirst | pkg/iam/pkg/iamserver/core_user_profile_image.go:121-127 | a relative key under a non-empty base gives a URL that starts with the base and one "/" |
| ProfileImages.DeleteLiveRows | pkg/iam/pkg/iamserver/core_user_profile_image.go:43-49 | the UPDATE keeps every row's user and key, leaves no live row of the user, and does not touch other users' rows |
| ProfileImages.LiveKey | pkg/iam/pkg/iamserver/core_user_profile_image.go:29-65 | "" when the user has no live row; otherwise the key of one of the user's live rows |
| ProfileImages.LiveKeyOfOnlyRow | pkg/iam/pkg/iamserver/core_user_profile_image.go:53-63 | with exactly one live row of the user, its key is the one read |
| ProfileImages.LiveKeyOfOtherUser | pkg/iam/pkg/iamserver/core_user_profile_image.go:42-65 | the key read for a user does not change when the user's rows do not change and the added rows belong to others |
| ProfileImages.ReplaceKeepsOneLiveRow | pkg/iam/pkg/iamserver/core_user_profile_image.go:42-65 | soft-deleting the user's live rows and adding at most one row of theirs keeps at most one live row per user |
| ProfileImages.ProfileImageTable.constructor | pkg/iam/pkg/iamserver/core_user_profile_image.go:42-65 | an empty image table, with at most one live key per user |
| ProfileImages.ProfileImageTable.SetUserProfileImageURL | pkg/iam/pkg/iamserver/core_user_profile_image.go:21-66 | a context that is no user subject, another user's id, and a non-empty URL that is not allowed are refused and change nothing; otherwise the live key is soft-deleted and a non-empty URL becomes the user's only live key, "" clearing it, and no other user's key changes |
| EmailAddresses.Address.String | volib/pkg/email/address.go:63-65 | the local part, one "@", then the domain part, and nothing else |
| EmailAddresses.MatchesDomainPatternSplit | volib/pkg/email/address.go:83 | the domain pattern holds exactly when every "."-separated piece is a label: 1 to 63 alphanumerics or "-", starting and ending with an alphanumeric |
| EmailAddresses.AddressFromString | volib/pkg/email/address.go:20-39 | no "@" is malformed; an empty local part is "local part: empty"; a domain off the pattern is the domain-part error; a success keeps the text before the first "@", the lowercased text after it, and the raw input |
| EmailAddresses.NoAtIsMalformed | volib/pkg/email/address.go:21-24 | an input without "@" is malformed |
| EmailAddresses.SecondAtRejected | volib/pkg/email/address.go:21-31 | a second "@" lands in the domain part, which is then refused |
| EmailAddresses.AtNotInPattern | volib/pkg/email/address.go:83 | no domain holding "@" matches the pattern |
| EmailAddresses.ParsedIsSound | volib/pkg/email/address.go:34-44 | every parsed address is sound |
| EmailAddresses.ValidAddressParses | volib/pkg/email/address.go:82-87 | an input IsValidAddress accepts parses without error |
| EmailAddresses.PatternToLower | volib/pkg/email/address.go:29-36 | lowercasing a domain does not change whether it matches the pattern |
| EmailAddresses.ReparseString | volib/pkg/email/address.go:20-65 | String of a parsed address parses back to the same parts |
| EmailAddresses.DomainCaseIgnored | volib/pkg/email/address.go:20-61 | two inputs that differ only in the case of the domain parse to addresses that are Equals |
| EmailAddresses.ParseJoined | volib/pkg/email/address.go:20-39 | with a non-empty local part free of "@", the parse depends on the domain alone |
| EmailAddresses.JoinedLocalHasNoAt | volib/pkg/email/address.go:21-31 | a local part that parses is non-empty and holds no "@" |
| EmailAddresses.EqualsReflexiveSymmetric | volib/pkg/email/address.go:50-61 | Equals is reflexive and symmetric; a non-nil pointer compares as its target does; a nil pointer or another type is never equal |
| EmailAddresses.LocalPartCaseMatters | volib/pkg/email/address.go:53-54 | the local part is compared exactly: "A" and "a" at the same domain differ |
| PhoneNumbers.PhoneNumber.String | volib/pkg/telephony/phonenumber.go:71-77 | always starts with "+"; the zero number is "+" alone; every other number is "+", the country code, then the national number, in decimal |
| PhoneNumbers.PhoneNumber.RawOrFormatted | volib/pkg/telephony/phonenumber.go:81-86 | the raw input when there is one, the formatted number otherwise; never empty |
| PhoneNumbers.NewPhoneNumber | volib/pkg/telephony/phonenumber.go:21-23 | the given country code and national number, no raw input, not sound |
| PhoneNumbers.Int64OfUint64 | volib/pkg/telephony/phonenumber.go:39 | Go's int64 conversion: the same value modulo 2^64, unchanged below 2^63 |
| PhoneNumbers.PhoneNumberFromString | volib/pkg/telephony/phonenumber.go:25-45 | a parse error of the rewritten input is returned; otherwise its country code, national number (as int64) and validity, with the rewritten input as raw input |
| PhoneNumbers.SplitCount | volib/pkg/telephony/phonenumber.go:27 | splitting gives one more part than there are separators |
| PhoneNumbers.RewrittenIffTwoPluses | volib/pkg/telephony/phonenumber.go:27-30 | the rewrite happens exactly for inputs with two "+" |
| PhoneNumbers.RewriteKeepsTailAfterSecondPlus | volib/pkg/telephony/phonenumber.go:27-30 | an input with two "+" becomes "+" and the text after the second |
| PhoneNumbers.NotRewrittenOtherwise | volib/pkg/telephony/phonenumber.go:27-30 | with any other count of "+" the input is kept |
| PhoneNumbers.NewPhoneNumberIsFormatted | volib/pkg/telephony/phonenumber.go:21-86 | a number made by NewPhoneNumber prints as its formatted string |
| PhoneNumbers.EqualsSameString | volib/pkg/telephony/phonenumber.go:53-77 | equal numbers print the same, whatever their raw inputs |
| PhoneNumbers.EqualsEquivalence | volib/pkg/telephony/phonenumber.go:53-63 | Equals is an equivalence; a non-nil pointer compares as its target does; nil and other types are never equal |
| PhoneNumbers.StringHasNoBoundary | volib/pkg/telephony/phonenumber.go:71-77 | country code 1 with number 23 and country code 12 with number 3 both print "+123" yet are not equal |
| KeyPhoneNumbers.SQLGroups | pkg/iam/pkg/iamserver/core_user_key_phone_number.go:321-330 | one group per number, in order, each "(" country code "," national number ")" |
| KeyPhoneNumbers.PhoneNumberSliceToSQLSetString | pkg/iam/pkg/iamserver/core_user_key_phone_number.go:316-332 | the buffer loop writes exactly the numbers' groups, in order, separated by commas; "" for no numbers |
| KeyPhoneNumbers.SQLSetStringOfNone | pkg/iam/pkg/iamserver/core_user_key_phone_number.go:317-319 | no numbers give "" |
| KeyPhoneNumbers.SQLSetStringCons | pkg/iam/pkg/iamserver/core_user_key_phone_number.go:321-330 | the set of a number followed by others is its group, a comma, then the others' set |
| KeyPhoneNumbers.SQLGroupCounts | pkg/iam/pkg/iamserver/core_user_key_phone_number.go:325-329 | a group holds one "(", one ")" and one "," (decimal numbers hold none) |
| KeyPhoneNumbers.SQLSetStringCounts | pkg/iam/pkg/iamserver/core_user_key_phone_number.go:316-332 | the set of n numbers holds n "(", n ")" and 2n-1 commas, so each number is one group |
| KeyPhoneNumbers.VerifiedOwner | pkg/iam/pkg/iamserver/core_user_key_phone_number.go:62-86 | the zero id-num when no confirmed live row holds the number; otherwise the user of such a row |
| KeyPhoneNumbers.VerifiedOwnerOfRow | pkg/iam/pkg/iamserver/core_user_key_phone_number.go:62-86 | under the unique index on confirmed numbers, the owner is the user of any confirmed live row with the number |
| KeyPhoneNumbers.LiveRow | pkg/iam/pkg/iamserver/core_user_key_phone_number.go:197 | None exactly when the user has no live row for the number; otherwise such a row |
| KeyPhoneNumbers.AnyRow | pkg/iam/pkg/iamserver/core_user_key_phone_number.go:218-223 | a row of the user with the number, deleted or not; a live answer is the live row |
| KeyPhoneNumbers.AlreadyVerifiedAsWritten | pkg/iam/pkg/iamserver/core_user_key_phone_number.go:218-223 | (as written) true only when some row of the user with the number, deleted or not, is confirmed |
| KeyPhoneNumbers.AlreadyVerified | pkg/iam/pkg/iamserver/core_user_key_phone_number.go:190-231 | (corrected) true exactly when the user's live row for the number, the one the insert ran into, is confirmed |
| KeyPhoneNumbers.AlreadyVerifiedReadsDeletedRow | pkg/iam/pkg/iamserver/core_user_key_phone_number.go:218-223 | a deleted confirmed row ahead of the live unconfirmed one makes the query as written report the number confirmed, while the live row is not |
| KeyPhoneNumbers.InsertKeepsConstraints | pkg/iam/pkg/iamserver/core_user_key_phone_number.go:190-205 | the insert with its conflict clause keeps the table's constraints and leaves a live row of the user for the number |
| KeyPhoneNumbers.InsertIdempotent | pkg/iam/pkg/iamserver/core_user_key_phone_number.go:197-198 | inserting the same user and number twice changes nothing the second time |
| KeyPhoneNumbers.ConfirmRows | pkg/iam/pkg/iamserver/core_user_key_phone_number.go:285-297 | the UPDATE confirms exactly the live unconfirmed rows of the user with the number and leaves every other row as it was |
| KeyPhoneNumbers.ConfirmKeepsConstraints | pkg/iam/pkg/iamserver/core_user_key_phone_number.go:285-306 | an UPDATE the unique index accepts keeps the constraints and leaves no unconfirmed live row of the user for the number |
| KeyPhoneNumbers.UnconfirmedWitness | pkg/iam/pkg/iamserver/core_user_key_phone_number.go:290-292 | a live unconfirmed row of the user with the number is a row the UPDATE changes |
| KeyPhoneNumbers.KeyPhoneNumberTable.constructor | pkg/iam/pkg/iamserver/core_user_key_phone_number.go:21 | an empty key phone-number table, which meets the constraints |
| KeyPhoneNumbers.KeyOf | pkg/iam/pkg/iamserver/core_user_key_phone_number.go:31-59 | a confirmed live number of the user, made without raw input, or None when the user has none |
| KeyPhoneNumbers.KeyPhoneNumberTable.GetUserKeyPhoneNumber | pkg/iam/pkg/iamserver/core_user_key_phone_number.go:23-59 | a confirmed live number of the user, without raw input, or None (the no-rows case) when the user has none |
| KeyPhoneNumbers.KeyPhoneNumberTable.GetUserIDNumByKeyPhoneNumber | pkg/iam/pkg/iamserver/core_user_key_phone_number.go:62-86 | under the constraints, the user of every confirmed live row with the number; the zero id-num (the no-rows case) when there is none |
| KeyPhoneNumbers.NewestLiveRow | pkg/iam/pkg/iamserver/core_user_key_phone_number.go:102-108 | None exactly when no live row holds the number; otherwise a live row with the number created no earlier than any other |
| KeyPhoneNumbers.NumberOwnerAllowUnverified | pkg/iam/pkg/iamserver/core_user_key_phone_number.go:90-123 | the zero user and false when no live row holds the number; a confirmed answer names the user of a confirmed live row with the number |
| KeyPhoneNumbers.ConfirmedAnswerIsOwner | pkg/iam/pkg/iamserver/core_user_key_phone_number.go:62-123 | under the constraints, a confirmed answer names the same user as the lookup of confirmed numbers |
| KeyPhoneNumbers.KeyPhoneNumberTable.GetUserIDByKeyPhoneNumberAllowUnverified | pkg/iam/pkg/iamserver/core_user_key_phone_number.go:90-123 | a confirmed answer is the number's owner; a non-zero answer is the user of a live row with the number |
| KeyPhoneNumbers.KeyPhoneNumberTable.SetKeyPhoneNumberRow | pkg/iam/pkg/iamserver/core_user_key_phone_number.go:182-232 | (corrected) exactly the insert with its conflict clause, recording the context's terminal and user; reports whether the user's live row was already confirmed, which the code as written reads without the deletion filter (see Findings); the constraints hold after |
| KeyPhoneNumbers.KeyPhoneNumberTable.SetUserKeyPhoneNumber | pkg/iam/pkg/iamserver/core_user_key_phone_number.go:125-180 | (corrected) a context that is no user subject, or another user's id, is refused without change; a number confirmed for another user is a conflict and for the caller a no-op; otherwise the row is inserted, and unless its live row was confirmed (read as AlreadyVerified, not as written) the verifier's start gives the id and expiry, an invalid-number argument error, or a wrapped error |
| KeyPhoneNumbers.KeyPhoneNumberTable.EnsureUserPhoneNumberVerifiedFlag | pkg/iam/pkg/iamserver/core_user_key_phone_number.go:277-314 | a number confirmed for another user is a conflict and changes nothing; otherwise exactly the UPDATE, with a state change reported exactly when a row was unconfirmed; afterwards none is |
| KeyPhoneNumbers.KeyPhoneNumberTable.ConfirmUserPhoneNumberVerification | pkg/iam/pkg/iamserver/core_user_key_phone_number.go:234-269 | a code mismatch, an expired code and a verifier error are refused without change; a failed number lookup or a conflicting UPDATE panics; otherwise the number is confirmed for the context's user, reporting whether a row changed |
| KeyPhoneNumbers.ConfirmTwice | pkg/iam/pkg/iamserver/core_user_key_phone_number.go:277-314 | confirming a second time finds nothing to change and changes nothing |
| PhoneVerificationMethods.VerificationMethodFromString | pkg/iam/pkg/iamserver/pnv10n/verification.go:24-34 | "" is unspecified, "none" and "sms" name their methods, every other string is unknown; nothing else is produced |
| PhoneVerificationMethods.FromStringValid | pkg/iam/pkg/iamserver/pnv10n/verification.go:19-34 | a string parses to a valid method exactly when it is "none" or "sms" |
| PhoneVerificationMethods.TestVectors | pkg/iam/pkg/iamserver/pnv10n/verification.go:11-34 | unspecified and unknown are invalid, none and SMS are valid; "", "none", "sms" and "SMS" parse to unspecified, none, SMS and unknown |
| EmailVerificationMethods.VerificationMethodFromString | pkg/iam/pkg/iamserver/eav10n/verification.go:23-31 | "" is unspecified, "none" is none, every other string is unknown |
| EmailVerificationMethods.FromStringValid | pkg/iam/pkg/iamserver/eav10n/verification.go:18-31 | a string parses to a valid method exactly when it is "none" |
| EmailVerificationMethods.ThreeReachableValues | pkg/iam/pkg/iamserver/eav10n/verification.go:11-31 | every string parses to unspecified, unknown or none, and "sms" is unknown for email addresses |
| OAuth2.GrantTypeFromString | pkg/api/oauth2/oauth2.go:20-32 | one of the four grant types, equal to the input when known, else the unknown grant type |
| OAuth2.GrantTypesOfRfc6749 | pkg/api/oauth2/oauth2.go:11-32 | exactly the grant types of RFC 6749 parse, each to itself; every other string is the unknown "" |
| OAuth2.GrantTypeFromStringIdempotent | pkg/api/oauth2/oauth2.go:20-32 | parsing a parsed grant type again gives it back |
| OAuth2.ResponseTypeFromString | pkg/api/oauth2/oauth2.go:54-62 | "code" or "token", equal to the input when known, else the unknown response type |
| OAuth2.ResponseTypeRoundTrip | pkg/api/oauth2/oauth2.go:47-64 | printing a known response type and parsing it gives it back; parsing is idempotent; every other string is "" |
| OAuth2.ErrorCodesOfRfc6749 | pkg/api/oauth2/oauth2.go:36-43 | five of the codes are token-endpoint codes of section 5.2 of RFC 6749; server_error is an authorization-endpoint code of section 4.1.2.1 |
| ImageServer.FitModeFromString | foundation/pkg/media/image/server/server.go:373-383 | the trimmed, lowercased text "contain" or "max" is contain, "crop", "cover" or "min" is crop, "" is unspecified, each exactly; any other text is the unsupported-value error |
| ImageServer.FitModeRoundTrip | foundation/pkg/media/image/server/server.go:373-395 | printing contain, crop or unspecified and parsing the text gives the mode back |
| ImageServer.ScaleDirectionFromString | foundation/pkg/media/image/server/server.go:417-431 | the trimmed, lowercased text "none", "both", "up", "down" or "" is that direction, each exactly; any other text is the unsupported-value error |
| ImageServer.ScaleDirectionRoundTrip | foundation/pkg/media/image/server/server.go:417-447 | printing none, both, up, down or unspecified and parsing the text gives the direction back |
| ImageServer.NoBreakSpaceTrimmed | foundation/pkg/media/image/server/server.go:373-383 | white space outside ASCII is trimmed as Go's strings.TrimSpace trims it: "contain" followed by a no-break space is contain |
| ImageServer.IdeographicSpaceTrimmed | foundation/pkg/media/image/server/server.go:417-431 | "up" after an ideographic space is the direction up |
| ImageServer.InvalidTextRefused | foundation/pkg/media/image/server/server.go:385-447 | any other fit or scale value prints "<invalid>", which both parsers refuse |
| ImageServer.ARGBValueChannels | foundation/pkg/media/image/server/server.go:449-456 | A<<24, R<<16, G<<8 and B fill a 32-bit value from which the four channels are recovered |
| ImageServer.ARGBHexRoundTrip | foundation/pkg/media/image/server/server.go:449-456 | the lower-case hexadecimal text without leading zeros reads back as that value, giving back the four channels |
| ImageServer.ARGBHexInjective | foundation/pkg/media/image/server/server.go:449-456 | distinct colours print as distinct texts |
| ImageServer.WidthDefault | foundation/pkg/media/image/server/server.go:57-60 | the configured width default when positive, else 1024; always positive |
| ImageServer.HeightDefault | foundation/pkg/media/image/server/server.go:61-64 | the configured height default when positive, else the width constant 1024; always positive |
| ImageServer.ParseInt32 | foundation/pkg/media/image/server/server.go:79-97 | a parsed value is in the int32 range and came from an optional sign and digits; an empty value fails |
| ImageServer.ParseFormatInt32 | foundation/pkg/media/image/server/server.go:79-97 | every int32 reads back from its decimal text |
| ImageServer.ApplyEntry | foundation/pkg/media/image/server/server.go:75-129 | one query entry either sets its field or is a 400; it never sets a padding colour |
| ImageServer.ApplyQuery | foundation/pkg/media/image/server/server.go:75-129 | the query loop either gives parameters or answers 400 |
| ImageServer.Normalize | foundation/pkg/media/image/server/server.go:131-157 | a negative width or height is a 400, exactly; otherwise zero sizes take the defaults, an unspecified fit becomes contain and an unspecified scale down, and the colour is kept |
| ImageServer.ApplyQueryEntries | foundation/pkg/media/image/server/server.go:74-129 | the loop over the entries, stopping at the first refused one, gives what the query-loop function gives |
| ImageServer.ResolveParameters | foundation/pkg/media/image/server/server.go:56-157 | the defaults, the query loop and the checks after it give the parameters a request is served with, or its 400 |
| ImageServer.ErrorStops | foundation/pkg/media/image/server/server.go:80-127 | once a prefix of the query is refused, the whole query is refused with 400 |
| ImageServer.QueryKeepsNamedModes | foundation/pkg/media/image/server/server.go:98-121 | after the loop the fit and the scale are named, non-unspecified values and no padding colour is set |
| ImageServer.ServedParametersNormalized | foundation/pkg/media/image/server/server.go:56-157 | served parameters have positive sizes, a named fit and scale, and request no padding |
| ImageServer.EmptyQueryGivesDefaults | foundation/pkg/media/image/server/server.go:33-72 | without a query the defaults are served: default sizes, contain, down, no padding |
| ImageServer.WidthQuery | foundation/pkg/media/image/server/server.go:78-141 | a width of 0 takes the default, a negative width is a 400, and a positive width is kept |
| ImageServer.UnknownKeyRefused | foundation/pkg/media/image/server/server.go:122-127 | an unknown key is a 400 wherever it stands in the query |
| ImageServer.UnknownKeyRefusedFrom | foundation/pkg/media/image/server/server.go:122-127 | from any parameters, a query holding an unknown key is refused with 400 |
| RestServer.ServerConfig.Normalized | pkg/iam/pkg/iamserver/rest/server.go:39-43 | one trailing "/" comes off the serve path, a path without one is kept, and every other field is unchanged |
| RestServer.ServerConfig.APISpecServePath | pkg/iam/pkg/iamserver/rest/server.go:45-47 | the serve path followed by exactly "/apidocs.json" |
| RestServer.NormalizedIdempotence | pkg/iam/pkg/iamserver/rest/server.go:39-43 | normalizing a second time changes nothing exactly when the serve path does not end in "//" |
| RestServer.APISpecOfNormalized | pkg/iam/pkg/iamserver/rest/server.go:39-47 | for a serve path ending in one "/", the document sits at that path + "apidocs.json", with no doubled "/" |
| RestServer.V1ServePath | pkg/iam/pkg/iamserver/rest/server.go:300-306 | the configured version 1 path when set and non-empty, else the serve path + "/v1" |
| RestServer.RequirementsOf | pkg/iam/pkg/iamserver/rest/server.go:344-361 | a parameter adds at most one requirement per security definition |
| RestServer.KeptParameters | pkg/iam/pkg/iamserver/rest/server.go:339-368 | the kept parameters are no more than the parameters |
| RestServer.ProcessOpenAPIPathOp | pkg/iam/pkg/iamserver/rest/server.go:326-370 | nil stays nil and an operation tagged "hidden" becomes nil; any other loses its credential parameters and gains their security requirements |
| RestServer.ProcessParameters | pkg/iam/pkg/iamserver/rest/server.go:339-368 | the parameter loop keeps exactly the non-credential parameters and appends, parameter by parameter, the requirements each credential adds |
| RestServer.HasHiddenTag | pkg/iam/pkg/iamserver/rest/server.go:333-337 | true exactly when "hidden" is one of the tags |
| RestServer.CredentialRequirements | pkg/iam/pkg/iamserver/rest/server.go:341-363 | the loop over the security definitions gives one requirement per definition the parameter is the credential of, in order; none for an empty description |
| RestServer.NoDescriptionNoRequirements | pkg/iam/pkg/iamserver/rest/server.go:342 | a parameter with an empty description adds no requirement |
| RestServer.ProcessOpenAPIPath | pkg/iam/pkg/iamserver/rest/server.go:313-324 | the clean-up applied to each of the seven operations of a path item, and nothing else changed |
| RestServer.KeptParametersConcat | pkg/iam/pkg/iamserver/rest/server.go:340-367 | the filter decides parameter by parameter, so it distributes over concatenation and keeps order |
| RestServer.AddedSecurityConcat | pkg/iam/pkg/iamserver/rest/server.go:340-367 | the requirements of a concatenation are those of each part, in order |
| RestServer.KeptParameterSingle | pkg/iam/pkg/iamserver/rest/server.go:364-366 | a parameter is kept exactly when it adds no requirement |
| RestServer.RequirementsOfSchemes | pkg/iam/pkg/iamserver/rest/server.go:344-361 | a parameter adds no requirement exactly when it is no definition's credential |
| RestServer.EmptyDescriptionKept | pkg/iam/pkg/iamserver/rest/server.go:339-368 | every parameter with an empty description is kept |
| RestServer.RemovedParametersAddSecurity | pkg/iam/pkg/iamserver/rest/server.go:349-358 | each removed parameter adds at least one security requirement |
| RestServer.KeptParametersAreNotCredentials | pkg/iam/pkg/iamserver/rest/server.go:339-368 | every kept parameter was a parameter and is no definition's credential |
| RestServer.NoSchemesNoChange | pkg/iam/pkg/iamserver/rest/server.go:339-368 | without security definitions the parameters are all kept and no requirement is added |
| AppConfig.WebUIServePath | iam/pkg/iamserver/app/app.go:164-167 | the resolved web UI serve path ends in exactly one "/" |
| AppConfig.RESTServePathDefault | iam/pkg/iamserver/app/app.go:178-180 | the default REST serve path ends in "/rest/" |
| AppConfig.Config.constructor | iam/pkg/iamserver/app/app.go:158 | a configuration holding the given fields |
| AppConfig.Config.ResolveConfig | iam/pkg/iamserver/app/app.go:158-188 | the configuration becomes its resolved value: the web UI block, the REST block, then the email verification resources directory |
| AppConfig.Config.ResolveWebUIConfig | iam/pkg/iamserver/app/app.go:159-173 | the web UI block is created when nil, gets its normalized serve path, files directory and sign-in URL; no other field changes |
| AppConfig.Config.ResolveRESTConfig | iam/pkg/iamserver/app/app.go:175-183 | the REST block is created when nil and gets its default serve path; an empty canonical URL becomes the serve path + "v1/"; no other field changes |
| AppConfig.ResolveKeepsConfigured | iam/pkg/iamserver/app/app.go:158-188 | every configured non-empty field is kept, and every defaulted field is non-empty |
| AppConfig.WebUIServePathNormalized | iam/pkg/iamserver/app/app.go:164-167 | trailing slashes of the web UI serve path become exactly one, and a path without one gains one |
| AppConfig.WebUIServePathFixed | iam/pkg/iamserver/app/app.go:167 | a path that already ends in exactly one "/" is kept as it is |
| AppConfig.ResolveIdempotent | iam/pkg/iamserver/app/app.go:158-188 | resolving a resolved configuration changes nothing |
| AppConfig.CanonicalURLIsV1Path | iam/pkg/iamserver/app/app.go:178-183 | with the REST paths left to their defaults, the canonical REST URL is the REST server's version 1 path with a trailing "/" |
| ApplicationStore.LastIndexOf | iam/pkg/iamserver/application.go:42-55 | -1 exactly when the header does not name the column; otherwise the last index holding that name |
| ApplicationStore.HeaderColumns | iam/pkg/iamserver/application.go:36-55 | the loop over the header row gives each attribute the last column with its name, or -1 |
| ApplicationStore.ColumnsStep | iam/pkg/iamserver/application.go:42-55 | one more header column points the attribute of its name at it and leaves the others |
| ApplicationStore.FieldUnderColumn | iam/pkg/iamserver/application.go:57-65 | a row's field under a named column; "" for a column the header does not name or a row too short for it |
| ApplicationStore.TrimmedPieces | iam/pkg/iamserver/application.go:82-87 | no more pieces than parts |
| ApplicationStore.AppendTrimmedPieces | iam/pkg/iamserver/application.go:82-87 | the loop over the parts keeps, in order, the trimmed parts that are not empty |
| ApplicationStore.RequiredScopes | iam/pkg/iamserver/application.go:75-91 | the scope text split on " ", or on "," when that gives one part, then trimmed pieces; one part is kept whole |
| ApplicationStore.RedirectURIs | iam/pkg/iamserver/application.go:93-106 | the redirect URI text split on ",", then trimmed pieces; one part is kept whole |
| ApplicationStore.TrimSpaceIdempotent | iam/pkg/iamserver/application.go:83 | trimming a trimmed string changes nothing |
| ApplicationStore.TrimmedPiecesAreTrimmed | iam/pkg/iamserver/application.go:82-87 | every kept piece is non-empty and has no white space at either end |
| ApplicationStore.ListsHoldNonEmptyPieces | iam/pkg/iamserver/application.go:75-106 | scopes and redirect URIs are never empty, and split lists hold trimmed pieces |
| ApplicationStore.SinglePartKeptWhole | iam/pkg/iamserver/application.go:88-105 | text with neither separator is kept whole, untrimmed |
| ApplicationStore.TwoScopesBySpace | iam/pkg/iamserver/application.go:77-87 | two scopes separated by a space give the two scopes |
| ApplicationStore.ScopeListOfPlainParts | iam/pkg/iamserver/application.go:77-87 | text that splits on spaces into two plain pieces gives those two scopes |
| ApplicationStore.ScopeListOfParts | iam/pkg/iamserver/application.go:77-87 | text that splits on spaces into several parts gives their trimmed non-empty pieces |
| ApplicationStore.PlainPiecesKept | iam/pkg/iamserver/application.go:82-87 | two plain pieces are kept as they are |
| ApplicationStore.TwoScopesByComma | iam/pkg/iamserver/application.go:77-104 | two plain pieces separated by a comma give the two scopes, and the two redirect URIs |
| ApplicationStore.ListsOfPlainCommaParts | iam/pkg/iamserver/application.go:77-104 | text without spaces that splits on commas into two plain pieces gives them as scopes and as URIs |
| ApplicationStore.ListsOfCommaParts | iam/pkg/iamserver/application.go:77-104 | text without spaces that splits on commas into several parts gives their trimmed non-empty pieces as scopes and as URIs |
| ApplicationStore.CommaSpaceKeepsComma | iam/pkg/iamserver/application.go:77-87 | a comma followed by a space splits on the space only, so the comma stays on the first scope |
| ApplicationStore.LoadRow | iam/pkg/iamserver/application.go:68-115 | a row loads exactly when its first field parses as an application id; its attributes are then stored under that id |
| ApplicationStore.Load | iam/pkg/iamserver/application.go:26-68 | fewer rows than skipRows is the "header row required" error; an empty file with skipRows 0, or a negative skipRows, panics |
| ApplicationStore.LoadApplications | iam/pkg/iamserver/application.go:32-118 | the loop over the rows after the skipped ones gives what the load function gives |
| ApplicationStore.RowAttributes | iam/pkg/iamserver/application.go:75-115 | a row's display name, secret, platform type, scopes and redirect URIs are read from the header's columns |
| ApplicationStore.RowsStop | iam/pkg/iamserver/application.go:68-73 | once a prefix of the rows fails to load, the whole fails with the same result |
| ApplicationStore.LoadedRowsParsed | iam/pkg/iamserver/application.go:68-73 | every row of a loaded list parsed as an id |
| ApplicationStore.LoadedIds | iam/pkg/iamserver/application.go:67-118 | a loaded list holds exactly the ids the rows parse to |
| ApplicationStore.LastRowWins | iam/pkg/iamserver/application.go:109-115 | a later row with the same id overwrites an earlier one: the last row with an id gives its attributes |
| ApplicationStore.ApplicationStaticDataProvider.constructor | iam/pkg/iamserver/application.go:118 | a provider over the loaded applications |
| ApplicationStore.ApplicationStaticDataProvider.GetApplication | iam/pkg/iamserver/application.go:121-130 | nil, with no error, exactly for an unknown id; otherwise the application with that id and its stored attributes |
| ApplicationStore.GetLoadedApplication | iam/pkg/iamserver/application.go:16-130 | the provider made from a loaded file finds each application row's id, with the attributes of the last row for that id |

## Left out

- No member of the model performs I/O. That covers:
  - database access: queries, transactions, driver errors, and SQL text built by goqu;
  - the HTTP handlers, logging, and file and media-store access.
  - An error from the database is not modelled unless the code branches on its kind: the primary-key and unique-index conflicts.
- The foreign encoders are parameters or opaque values of the model:
  - the azid text codec
  - argon2.IDKey
  - the phonenumbers library
  - the email domain regular expression
  - crypto/rand.

  The lemmas state what they need of them as requires.
- Concurrency is not modelled: each method runs alone on its table.
- Case folding is ASCII only. Go's `strings.ToLower` folds all of Unicode.
- Strings are sequences of Unicode code points. Go strings are bytes, and the model does not capture invalid UTF-8. White space in `Strings.TrimSpace` is `unicode.IsSpace`'s set.
- IsFollowsUnwrap: `Errors.Is` and `Errors.IsAsWritten` compare errors by value. Go's `errors.Is` compares interface values, and `errors.New`, `Ent`, `EntMsg` and `Wrap` all return pointers, so Go equates only the very same error. The model treats structurally equal errors as one error: `Is(EntMsg("u", "x"), Msg("x"))` holds in the model, whereas a fresh `errors.New("x")` in Go is a different error from the one inside the entity error.
- ScanUnsigned: Go's `fmt.Sscanf` `%d` skips leading spaces; the model accepts none, so the parameter field `m= 65536,t=3,p=2` is refused where Go accepts it. The model also reports a missing literal and a missing number as one mismatch error, where Go's messages differ. The same holds for ScanInt, ScanParams and the scans of DecodePasswordHash.
- DecodeBase64: `base64.RawStdEncoding.DecodeString` skips `\r` and `\n` in its input; the model refuses them. So DecodePasswordHash and MatchPasswordAndPasswordHash refuse a salt or key holding a line break, which Go accepts.
- `KeyPhoneNumbers.NewestLiveRow`: the SQL query's order among rows created at the same instant is unspecified; the model takes the first such row.
- `ImageServer.ApplyQuery`: Go iterates over the query map in random order; the model takes the entries in a given order. Only which key comes first among several refused entries depends on it.
- `RestServer.RequirementsOf`: the security definitions are a Go map; the model takes them in a given order, which fixes the order of the added requirements.
- `ApplicationStore.Load`: the CSV reader's parsing is not modelled; the rows arrive as fields.
- `ImageServer.ResolveParameters`: the rest of ServeHTTP is not modelled. That covers:
  - the variant key from `processingParameters.Encode`;
  - file lookup, resizing and cropping, where the arithmetic is float32.
- The terminal authorization starts (`StartTerminalAuthorizationByPhoneNumber`, `StartTerminalAuthorizationByEmailAddress`) interleave database rows with verifier delivery; the model keeps only the confirmation side.
- `getTerminalRaw`, `GetTerminalInfo` and `getTerminalAcceptLanguagesAllowDeleted` are plain row reads. Only the authentication that reads the same rows is modelled.
- The application service base's database queries are not modelled beyond the creation retry loop. These are `IsApplicationIDRegistered`, `GetApplicationInstanceInfo`, `getApplicationInstanceStateByIDNum`, `deleteApplicationInstanceInsecure` and `initDataStoreInTx`.
- `SetUserProfileImageByFile` detects the media type and stores the file; only the URL row update is modelled.
- `generateTerminalSecret` and `generatePasswordSalt` draw random bytes; the results are parameters.
- `RefreshTokenClaims.Valid` and the token types belong to the JWT code, which is not part of this model.
- Several Authorization accessors return one field each and carry no contract of their own: `ID`, `UserID`, `UserIDNum`, `TerminalID`, `TerminalIDNum`, `ClientApplicationIDNum` and `RawToken`.
- The pnv10n and eav10n `verifier.go` files are not part of this model: verification rows, templates and delivery.
- The older duplicates in the `iam/…` tree are not part of this model. The core files cited in the table are modelled once; the duplicates also refer to names defined in files outside it.
- The OAuth password verification resource type is a constant defined outside the files cited. `TerminalStore.VerificationType` holds it as a value of its own.
- `AzId.BinDataTypeFromByte`: the Array, Int32 and Int64 codes of azid's type bytes come from a library outside the repository. The model fixes them as four distinct bytes; the proofs need only that they differ.

## Findings

| source | as written | input that shows it | evidently intended | confidence | as-written member | corrected member |
|---|---|---|---|---|---|---|
| pkg/errors/entity.go:59 | `entityError.Unwrap` returns a pointer to the entity error itself | `errors.Is(EntMsg("user", "x"), target)` with any target other than the entity error never ends, and the wrapped cause is never reached | Unwrap returns the wrapped error `e.err` | not executed | Errors.IsAsWrittenDiverges | Errors.Unwrap |
| pkg/iam/pkg/iamserver/core_user_key_phone_number.go:218-223 | after the conflicting insert, the `SELECT` of the verified flag does not filter out deleted rows (`md_d_ts IS NULL`) | a user with a deleted, confirmed row and a live, unconfirmed row for the same number: the query may read the deleted row and report the number already confirmed, so no verification starts | the flag of the live row the insert ran into | not executed | KeyPhoneNumbers.AlreadyVerifiedReadsDeletedRow | KeyPhoneNumbers.AlreadyVerified |
