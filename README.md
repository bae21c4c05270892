# PARRVA advice submission client: a Dafny model

This project models the logic at the heart of the PARRVA / NSE advice
submission client. The client is a browser application with a small local
proxy. Its users are research analysts (RA), investment advisers (IA) and
trading members (TMS). They fill in advice forms; each form is encrypted
into a JWE envelope and posted through the proxy to the NSE upstream API.

The model covers:

- **The JWE payload envelope** (`Jwe`, `Base64`, `Bytes`):
  - the PEM public key is stripped and base64-decoded, as the browser's
    `atob` does (forgiving-base64);
  - the hand-written base64url encoder (section 5 of RFC 4648, padding
    removed);
  - the AES-GCM output is split into ciphertext and 16-byte tag, and the
    additional data is the ASCII of the encoded header;
  - the five segments of the compact serialization (section 7.1 of
    RFC 7516) are assembled in order;
  - the result is wrapped as `[{data}]` or `{data}`;
  - the key validity and preview helpers.

  RSA-OAEP, AES-GCM, key import and the random source are parameters (a
  record of functions, and the 32-byte key plus 12-byte IV they produce).
- **The proxy** (`Proxy`): the route decision table (authentication, NSE
  `iainput`/`rainput`/`algoinput`, 404), the body it forwards, and the
  headers it sends.
- **The two stores** (`AuthStore`, `ApiStore`), as classes whose methods
  overwrite fields. Each method states its whole new state and keeps the
  store's invariant:
  - the session is all-in or all-out;
  - at most 20 submissions and 50 history entries are kept;
  - a response and an error are never held together.
- **The form logic** (`EndpointForm`, `AdvicePage`): field labels, the
  datetime input conversion, empty items, initialisation and sync of the item
  list, list edits, the payload shape and the proxy path of a submission.
- **The endpoint registry** (`Endpoints`): the constant table and its
  lookups.
- **Cross-module facts**: the proxy sends every advice form to the URL the
  registry lists for it.

JavaScript semantics are written out where they matter:

- `\s` whitespace and `trim`;
- `replace` of the first match, `slice` with negative indices, `substring`
  with clamping, and `split`/`join`;
- falsy values (an expiry of 0, an empty `Authorization` header,
  `items[0] || {}`);
- `role?.toLowerCase()` of a missing role giving `undefined` in a template
  string.

`JSON.stringify` and `JSON.parse` are parameters. The current time is a
parameter.

## Model

| member | source | states |
|---|---|---|
| Base64.Btoa | src/lib/crypto/jwe.ts:31 | `btoa` succeeds exactly on strings whose characters are all at most U+00FF |
| Base64.Base64UrlEncode | src/lib/crypto/jwe.ts:25-35 | the encoding uses only `A-Z a-z 0-9 - _`: no `+`, `/` or `=` |
| Base64.BtoaUrlSafe | src/lib/crypto/jwe.ts:31-34 | `btoa` of the binary string, with `+`→`-`, `/`→`_` and trailing `=` removed, is the unpadded base64url of the bytes |
| Base64.UrlLength | src/lib/crypto/jwe.ts:25-35 | n bytes encode to 4·⌊n/3⌋ + (0, 2, 3 for n mod 3 = 0, 1, 2) characters; the empty buffer encodes to the empty string |
| Base64.UrlRoundTrip | src/lib/crypto/jwe.ts:25-35 | decoding a base64url segment gives back exactly the bytes encoded, for every byte sequence |
| Base64.UnpaddedRoundTrip | src/lib/crypto/jwe.ts:25-35 | the forgiving decoder accepts the unpadded data characters and gives back the bytes |
| Base64.DataRoundTrip | src/lib/crypto/jwe.ts:25-35 | decoding the data characters group by group inverts the encoding |
| Base64.EncodedLength | src/lib/crypto/jwe.ts:25-35 | the data characters number 4·⌊n/3⌋ plus 0, 2 or 3 for the last group |
| Base64.DataLength | src/lib/crypto/jwe.ts:25-35 | the unpadded length is never 1 mod 4, and is 0 mod 4 exactly when n is a multiple of 3 |
| Base64.StdEncode | src/lib/crypto/jwe.ts:31 | the padded encoding has 4·⌈n/3⌉ characters, a multiple of 4 |
| Base64.DecodeData | src/lib/crypto/jwe.ts:14 | every full group of four characters gives three bytes, and a final group of 2 or 3 characters gives one or two |
| Base64.ForgivingDecode | src/lib/crypto/jwe.ts:14 | after whitespace and up to two `=` are removed, decoding fails exactly when the length is 1 mod 4 or a character is outside the standard alphabet; otherwise it gives three bytes per group and one or two for the last partial group |
| Base64.Atob | src/lib/crypto/jwe.ts:14 | `atob` succeeds exactly when forgiving-base64 decoding does, and then gives a binary string whose character codes are the decoded bytes |
| Base64.StdRoundTrip | src/lib/crypto/jwe.ts:14 | `atob` of the standard padded encoding of bytes gives those bytes back |
| Base64.RemoveAsciiWhitespace | src/lib/crypto/jwe.ts:14 | what the forgiving decoder keeps holds no ASCII whitespace |
| Base64.RemoveAsciiWhitespaceOfNone | src/lib/crypto/jwe.ts:14 | text without ASCII whitespace is left unchanged |
| Base64.DropPaddingOfPadded | src/lib/crypto/jwe.ts:14 | the decoder removes exactly the padding the encoder added |
| Base64.StdChar | src/lib/crypto/jwe.ts:31 | every sextet maps to a standard-alphabet character that maps back to it |
| Bytes.BytesToBinary | src/lib/crypto/jwe.ts:28-29 | `String.fromCharCode` per byte: one character per byte, with the byte's code |
| Bytes.BinaryToBytes | src/lib/crypto/jwe.ts:16-17 | `charCodeAt` per character: one byte per character, with its code |
| Bytes.Utf8Char | src/lib/crypto/jwe.ts:82 | `TextEncoder` gives one to four bytes per character, one exactly for ASCII, with continuation bytes in 0x80..0xBF |
| Bytes.Utf8Encode | src/lib/crypto/jwe.ts:82 | the UTF-8 length lies between the character count and four times it |
| Bytes.Utf8OfAscii | src/lib/crypto/jwe.ts:83 | for ASCII text, `TextEncoder` gives the character codes themselves |
| JsText.RemoveSpaces | src/lib/crypto/jwe.ts:13 | `replace(/\s+/g, '')` leaves no whitespace and only characters of the input |
| JsText.RemoveSpacesAppend | src/lib/crypto/jwe.ts:13 | removing whitespace distributes over concatenation |
| JsText.LeadingSpaces | src/components/api/EndpointForm.tsx:153 | counts exactly the whitespace prefix |
| JsText.TrimmedEnd | src/components/api/EndpointForm.tsx:153 | marks exactly where the whitespace suffix begins |
| JsText.Trim | src/components/api/EndpointForm.tsx:153 | `trim` leaves no whitespace at either end |
| JsText.IncludesTrim | src/lib/crypto/jwe.ts:131-135 | a pattern without edge whitespace occurs in the trimmed text exactly when it occurs in the text |
| JsText.IndexOf | src/lib/crypto/jwe.ts:11 | a reported index is an occurrence of the pattern |
| JsText.IndexOfFinds | src/lib/crypto/jwe.ts:11 | when the pattern occurs at k, the search reports an occurrence at or before k |
| JsText.FirstOccurrence | src/lib/crypto/jwe.ts:11 | the search reports the first occurrence |
| JsText.ReplaceFirst | src/lib/crypto/jwe.ts:11-12 | a non-global `replace` cuts out the first occurrence, or leaves the text alone when there is none |
| JsText.ReplaceAllChar | src/lib/crypto/jwe.ts:32-33 | a global one-character `replace` changes exactly the matching characters |
| JsText.StripTrailing | src/lib/crypto/jwe.ts:34 | `replace(/=+$/, '')` removes exactly the maximal run of `=` at the end |
| JsText.Substring | src/lib/crypto/jwe.ts:149 | `substring` clamps both indices into range and takes the text between them |
| JsText.Slice | src/components/api/EndpointForm.tsx:62 | `slice` counts negative indices from the end |
| JsText.Split | proxy-server.cjs:114 | `split` gives at least one part, none containing the separator |
| JsText.SplitAround | proxy-server.cjs:114 | splitting at a separator-free head gives that head, then the parts of the rest |
| JsText.SplitConcat | proxy-server.cjs:114 | splitting a concatenation joined by the separator gives the parts of each side |
| JsText.SplitJoin | src/lib/crypto/jwe.ts:100-106 | splitting a `join` of separator-free parts gives the parts back |
| JsText.Lower | proxy-server.cjs:115-116 | `toLowerCase` maps each character and keeps the length |
| Basics.Filter | src/lib/postman/endpoints.ts:428-430 | `filter` keeps exactly the elements satisfying the predicate |
| Basics.FilterAppend | src/stores/authStore.ts:133 | filtering distributes over concatenation, so table order is kept |
| Basics.FilterNone | src/lib/postman/endpoints.ts:428-430 | when nothing matches, the result is empty |
| Basics.FilterAll | src/stores/authStore.ts:133 | when everything matches, the result is the whole list |
| Basics.FindIndex | src/lib/postman/endpoints.ts:432-434 | the index of the first match, or none exactly when nothing matches |
| Basics.Find | src/lib/postman/endpoints.ts:432-434 | `find` returns the first match, or nothing exactly when no element matches |
| Basics.RemoveIndex | src/components/api/EndpointForm.tsx:217 | `filter((_, i) => i !== index)` removes exactly that index and keeps the order of the rest; an index out of range changes nothing |
| Basics.PrependCapped | src/stores/authStore.ts:138 | `[x, ...xs].slice(0, cap)`: x first, then the newest of the old entries in order, at most cap in all |
| Jwe.StripBetween | src/lib/crypto/jwe.ts:10-13 | the stripped body holds no whitespace |
| Jwe.PemBody | src/lib/crypto/jwe.ts:10-13 | the key body with the delimiters and whitespace removed holds no whitespace |
| Jwe.DecodePem | src/lib/crypto/jwe.ts:9-20 | the key bytes are the forgiving-base64 decoding of the body, and the error occurs exactly when that decoding fails |
| Jwe.PemToArrayBuffer | src/lib/crypto/jwe.ts:9-20 | fills a fresh byte array with the decoded key, or reports the `atob` failure |
| Jwe.BinaryToArray | src/lib/crypto/jwe.ts:15-18 | the loop stores each character code at its index |
| Jwe.PemRoundTrip | src/lib/crypto/jwe.ts:9-20 | a PEM built from the base64 of bytes b, with line breaks and surrounding whitespace, decodes to exactly b |
| Jwe.PemBodyOfArmored | src/lib/crypto/jwe.ts:10-13 | stripping such a PEM leaves exactly the standard base64 of b |
| Jwe.ArmoredBody | src/lib/crypto/jwe.ts:10-13 | removing dash-led delimiters and whitespace leaves exactly the base64 body |
| Jwe.StripDelimiters | src/lib/crypto/jwe.ts:10-13 | removing the first BEGIN, the first END and all whitespace leaves the body without its whitespace |
| Jwe.RemoveBegin | src/lib/crypto/jwe.ts:11 | the first BEGIN delimiter after leading whitespace is the one removed |
| Jwe.RemoveEnd | src/lib/crypto/jwe.ts:12 | the END delimiter after a dash-free body is the one removed |
| Jwe.SpacesAround | src/lib/crypto/jwe.ts:13 | whitespace around the body does not reach the result |
| Jwe.DecodeEncodedBody | src/lib/crypto/jwe.ts:14 | a body that is the standard base64 of b decodes to b |
| Jwe.NoDashInBody | src/lib/crypto/jwe.ts:10-13 | a wrapped base64 body contains no `-` |
| Jwe.DelimitersStartWithDash | src/lib/crypto/jwe.ts:11-12 | both delimiters start with `-` |
| Jwe.RemoveFirstAt | src/lib/crypto/jwe.ts:11-12 | a pattern whose first character does not occur before it is the first occurrence removed |
| Jwe.IsValidPublicKey | src/lib/crypto/jwe.ts:129-139 | `isValidPublicKey` holds exactly when both delimiters occur in the text |
| Jwe.ExtractKeyPreview | src/lib/crypto/jwe.ts:144-150 | the preview is 3 + 2·min(20, body length) characters long |
| Jwe.KeyPreviewParts | src/lib/crypto/jwe.ts:144-150 | the preview is the body's first 20 characters, `...`, and its last 20; a shorter body appears whole on both sides |
| Jwe.Base64UrlEncodeBuffer | src/lib/crypto/jwe.ts:25-35 | the loop and the rewrites compute exactly the unpadded base64url of the buffer |
| Jwe.EncodedHeader | src/lib/crypto/jwe.ts:74-76 | the header segment is base64url and decodes to the UTF-8 of the serialized header |
| Jwe.Sealed | src/lib/crypto/jwe.ts:81-93 | when the cipher appends a 16-byte tag, its output is 16 bytes longer than the payload's UTF-8 |
| Jwe.SplitTag | src/lib/crypto/jwe.ts:95-97 | ciphertext followed by tag is the cipher output; for at least 16 bytes, the tag is the last 16 |
| Jwe.Segments | src/lib/crypto/jwe.ts:100-106 | exactly five segments |
| Jwe.JweCompact | src/lib/crypto/jwe.ts:41-107 | a token results exactly when the key decodes, the import accepts it and both `encrypt` calls resolve; an undecodable key gives the base64 error, a refused key the import error, and any other failure the encryption error |
| Jwe.EncryptJwe | src/lib/crypto/jwe.ts:41-107 | the step-by-step sequence of primitive calls computes exactly the compact token |
| Jwe.JweSegments | src/lib/crypto/jwe.ts:100-106 | splitting the token on `.` gives exactly the five segments, the first being the encoded header, each base64url and free of `.` |
| Jwe.SegmentsSplit | src/lib/crypto/jwe.ts:100-106 | the joined segments split back into the same five |
| Jwe.UrlPartsSplit | src/lib/crypto/jwe.ts:106 | base64url parts joined with `.` split back into the same parts |
| Jwe.NoDotInUrl | src/lib/crypto/jwe.ts:106 | a base64url segment contains no `.` |
| Jwe.SegmentsDecode | src/lib/crypto/jwe.ts:95-106 | the key and IV segments decode to the wrapped key and the IV; ciphertext and tag decode to the whole cipher output |
| Jwe.SegmentLengths | src/lib/crypto/jwe.ts:79-105 | the 12-byte IV gives 16 characters; with a 16-byte GCM tag, the tag segment has 22 and the ciphertext segment encodes the payload's UTF-8 length |
| Jwe.AdditionalDataIsHeaderAscii | src/lib/crypto/jwe.ts:74-83 | the encoded header is ASCII, so the additional data is its character codes |
| Jwe.UrlIsAscii | src/lib/crypto/jwe.ts:83 | base64url text is ASCII and encodes to its own character codes |
| Jwe.Wrap | src/lib/crypto/jwe.ts:120-123 | both shapes carry the same token, which reading the envelope back gives; the array shape, and only it, is a list, of one element |
| Jwe.PrepareEncryptedPayload | src/lib/crypto/jwe.ts:112-124 | succeeds exactly when encryption of the serialized data does; carries that token; is a list exactly for the array format |
| Proxy.InputType | proxy-server.cjs:121-129 | the family is `rainput` or `iainput`: `rainput` exactly for portfolio, or for intraday/derivative with role `ra` |
| Proxy.InputTypeTable | proxy-server.cjs:121-129 | portfolio always goes to `rainput`; intraday and derivative go to `rainput` exactly for `ra`; every other type goes to `iainput` |
| Proxy.NseTarget | proxy-server.cjs:132-136 | every target lies below the NSE advice base |
| Proxy.NseTargetSegments | proxy-server.cjs:132-136 | below the base, algoinput has the single segment `algoinput`; every other type has the family and then the type |
| Proxy.TargetIgnoresOtherRoles | proxy-server.cjs:125-126 | two roles other than `ra` get the same target |
| Proxy.SplitHasTwoParts | proxy-server.cjs:114-116 | a path containing `/` has at least two segments, so role and type both exist |
| Proxy.RoleAndType | proxy-server.cjs:114-116 | the role and type are single segments (no `/`) with no capital letters |
| Proxy.Resolve | proxy-server.cjs:107-142 | a path is refused exactly when it is neither the authentication path nor below `/api/nse/` |
| Proxy.ResolveAuthenticate | proxy-server.cjs:108-110 | the authentication path goes to the careparrva authenticate URL |
| Proxy.ResolveNsePath | proxy-server.cjs:112-136 | `/api/nse/{role}/{type}` goes to the target of the lower-cased role and type |
| Proxy.ResolveLastTwoSegments | proxy-server.cjs:114-116 | extra segments before the last two do not change the target |
| Proxy.ResolveOther | proxy-server.cjs:138-142 | any other path is not forwarded |
| Proxy.ParseBody | proxy-server.cjs:26-39 | an empty body is `null`; text that parses is the parsed value; text that does not parse is kept as a string |
| Json.Falsy | proxy-server.cjs:146 | only `null`, `false`, `0` and `""` are falsy: never an object or array, and a string exactly when it is empty |
| Proxy.StringBody | proxy-server.cjs:146 | a falsy body is sent as `""`; a non-empty string as is; any other value (a non-zero number, `true`, an object, an array) serialized |
| Proxy.ForwardedBody | proxy-server.cjs:146 | an empty body stays empty; unparsable text is forwarded verbatim; a parsed object or array is re-serialized |
| Proxy.ForwardHeaders | proxy-server.cjs:150-159 | `Authorization` is present exactly when the caller sent a non-empty one, and then with its value; the key set, `Host`, and `Content-Length` as the UTF-8 byte length of the body |
| Proxy.AsciiContentLength | proxy-server.cjs:158 | for an ASCII body, `Content-Length` is its character count |
| Proxy.Hostname | proxy-server.cjs:149-152 | a host name contains no `/` |
| Proxy.HostnameOf | proxy-server.cjs:149-152 | the host name of `https://host/path` is host |
| Proxy.Handle | proxy-server.cjs:97-163 | a 404 JSON `{error: 'Not found'}` exactly for unrouted paths; otherwise forwards to the resolved target with the forwarded body and its headers |
| Proxy.ForwardedHosts | proxy-server.cjs:149-152 | every forwarded request's `Host` is careparrva.com or the NSE UAT host |
| Endpoints.GetEndpointsByCategory | src/lib/postman/endpoints.ts:428-430 | exactly the table entries whose category is written so, in table order |
| Endpoints.EndpointsByCategory | src/lib/postman/endpoints.ts:50-430 | each category selects exactly its entries in table order: `auth` the authenticate entry; `ra` and `ia` strategy, single stock, portfolio, intraday and derivative; `algo` the algo input |
| Endpoints.GetEndpointById | src/lib/postman/endpoints.ts:432-434 | a table entry with that id, or nothing exactly when no entry has it |
| Endpoints.GetEndpointByOwnId | src/lib/postman/endpoints.ts:432-434 | looking up an entry's own id finds that entry |
| Endpoints.GetCategories | src/lib/postman/endpoints.ts:436-441 | four categories |
| Endpoints.CategoriesAreTheCategoryIds | src/lib/postman/endpoints.ts:436-441 | the ids are `auth`, `ra`, `ia`, `algo` in that order, as the table writes the categories |
| Endpoints.OnlyAuthUsesObjectFormat | src/lib/postman/endpoints.ts:50-426 | the auth entry, and only it, uses the object format and the auth key |
| Endpoints.FullUrlIsBasePlusPath | src/lib/postman/endpoints.ts:50-426 | each full URL is the base URL followed by the path |
| Endpoints.IdsAreDistinct | src/lib/postman/endpoints.ts:50-426 | no two entries share an id |
| Endpoints.UnknownCategoryIsEmpty | src/lib/postman/endpoints.ts:428-430 | a category name none of the four uses selects nothing |
| Endpoints.EveryCategoryHasEntries | src/lib/postman/endpoints.ts:50-426 | each of the four categories selects at least one entry |
| AuthStore.TokenExpired | src/stores/authStore.ts:124-128 | no expiry, or an expiry of 0 (falsy), means expired; any other expiry is passed exactly when now is strictly after it |
| AuthStore.SessionExpiry | src/stores/authStore.ts:102-128 | a session opened at t is live up to and including t + 28 800 000 ms |
| AuthStore.AvailableAdviceTypes | src/stores/authStore.ts:130-134 | nothing without a role; otherwise exactly the table entries listing the role |
| AuthStore.TradingMemberAdviceTypes | src/stores/authStore.ts:15-64 | a trading member gets only the algo form |
| AuthStore.AnalystAdviceTypesByRole | src/stores/authStore.ts:15-64 | analysts and advisers get the other five forms, in table order |
| AuthStore.Session.constructor | src/stores/authStore.ts:95-100 | logged out, no submissions |
| AuthStore.Session.SetAuth | src/stores/authStore.ts:102-112 | sets token, role and name, logs in, expires eight hours on; submissions unchanged |
| AuthStore.Session.Logout | src/stores/authStore.ts:114-122 | clears token, role, name and expiry and logs out; submissions unchanged |
| AuthStore.Session.IsTokenExpired | src/stores/authStore.ts:124-128 | a logged-out session is expired |
| AuthStore.Session.GetAvailableAdviceTypes | src/stores/authStore.ts:130-134 | a logged-out session offers nothing |
| AuthStore.Session.AddSubmission | src/stores/authStore.ts:136-139 | newest first, at most 20 kept, the session unchanged |
| AuthStore.Session.ClearSubmissions | src/stores/authStore.ts:141-143 | empties the list and nothing else |
| ApiStore.RequestState.constructor | src/stores/apiStore.ts:51-57 | the initial, empty state |
| ApiStore.RequestState.SetSelectedEndpoint | src/stores/apiStore.ts:59-67 | selects the endpoint; the editor holds its example, or nothing when none is selected; preview, response and error cleared |
| ApiStore.RequestState.SetCurrentPayload | src/stores/apiStore.ts:69 | changes the payload text only |
| ApiStore.RequestState.SetEncryptedPreview | src/stores/apiStore.ts:71 | changes the preview only |
| ApiStore.RequestState.SetLoading | src/stores/apiStore.ts:73 | changes the loading flag only |
| ApiStore.RequestState.SetResponse | src/stores/apiStore.ts:75 | records the response and clears the error, so both are never held together |
| ApiStore.RequestState.SetError | src/stores/apiStore.ts:77 | records the error and clears the response |
| ApiStore.RequestState.AddToHistory | src/stores/apiStore.ts:79-84 | newest first, at most 50 kept, nothing else changed |
| ApiStore.RequestState.ClearHistory | src/stores/apiStore.ts:86 | empties the history and nothing else |
| ApiStore.RequestState.LoadFromHistory | src/stores/apiStore.ts:88-93 | changes only the payload text and the preview |
| EndpointForm.SpaceBeforeCapitals | src/components/api/EndpointForm.tsx:151 | exactly one character is inserted per capital letter, and every capital in the result has a space just before it |
| EndpointForm.SpaceBeforeCapitalsAppend | src/components/api/EndpointForm.tsx:151 | the global replace works character by character, so it distributes over concatenation |
| EndpointForm.CapitaliseFirst | src/components/api/EndpointForm.tsx:152 | keeps the length |
| EndpointForm.FormatFieldName | src/components/api/EndpointForm.tsx:149-154 | the label has no whitespace at either end |
| EndpointForm.SpacesOnlyInserted | src/components/api/EndpointForm.tsx:151 | the characters inserted are spaces and nothing else |
| EndpointForm.TrimRemovesOnlySpaces | src/components/api/EndpointForm.tsx:153 | trimming removes only whitespace |
| EndpointForm.FormatFieldNameExample | src/components/api/EndpointForm.tsx:149-154 | `shortTermIsin` is labelled `Short Term Isin` |
| EndpointForm.FieldNameLabel | src/components/api/EndpointForm.tsx:149-154 | deleting the spaces of a label gives the field name with its first letter capitalised |
| EndpointForm.DatetimeDisplay | src/components/api/EndpointForm.tsx:62 | the input shows at most sixteen characters |
| EndpointForm.DatetimeStore | src/components/api/EndpointForm.tsx:63 | an empty input stores the empty string, and only it |
| EndpointForm.DatetimeDisplayKeepsMinutes | src/components/api/EndpointForm.tsx:62 | a stored value starting with a `Z`-free 16-character time shows that time |
| EndpointForm.DatetimeRoundTrip | src/components/api/EndpointForm.tsx:62-63 | choosing a time and displaying what was stored shows the same time |
| EndpointForm.DefaultValue | src/components/api/EndpointForm.tsx:193-206 | `0` for a number field and only it, `false` for a boolean field and only it, the current ISO time for date and datetime fields, and a falsy value for every other type |
| EndpointForm.EmptyRecordShape | src/components/api/EndpointForm.tsx:191-210 | one key per field name, each holding the default of the last field with that name |
| EndpointForm.CreateEmptyItem | src/components/api/EndpointForm.tsx:191-210 | the loop builds exactly that record |
| EndpointForm.InitialItems | src/components/api/EndpointForm.tsx:166-180 | an array is taken as is; an object becomes the only item; a string that parses to an array gives its items, to anything else that value alone, and one that does not parse gives one empty record; any other value gives no items |
| EndpointForm.SyncValue | src/components/api/EndpointForm.tsx:183-189 | the whole list for the array format; for the object format the first item when it is truthy, and `{}` for an empty list or a falsy first item |
| EndpointForm.SyncThenInitialise | src/components/api/EndpointForm.tsx:166-189 | starting again from the reported value gives the same items back |
| EndpointForm.WithField | src/components/api/EndpointForm.tsx:92-94 | only the named key changes; all other keys keep their values |
| EndpointForm.Items.constructor | src/components/api/EndpointForm.tsx:163 | no items |
| EndpointForm.Items.Initialise | src/components/api/EndpointForm.tsx:166-180 | the items become the initial items of the value, with an empty item when parsing fails |
| EndpointForm.Items.AddItem | src/components/api/EndpointForm.tsx:212-214 | appends one empty item |
| EndpointForm.Items.RemoveItem | src/components/api/EndpointForm.tsx:216-218 | removes exactly the given index |
| EndpointForm.Items.UpdateItem | src/components/api/EndpointForm.tsx:220-224 | replaces only the given index |
| AdvicePage.FormFor | src/pages/AdvicePage.tsx:269 | a form exactly for a route parameter that names one, and then the form the table holds under that name |
| AdvicePage.FoundPageSubmitsList | src/pages/AdvicePage.tsx:269-311 | a page that is found submits the whole item list, each item as an object, in the array format |
| AdvicePage.PageFound | src/pages/AdvicePage.tsx:269-280 | the page is found exactly for the ids of the advice-type table |
| AdvicePage.FormsAreArrays | src/pages/AdvicePage.tsx:29-256 | every advice form is submitted as an array |
| AdvicePage.Payload | src/pages/AdvicePage.tsx:310 | all the items for an array form; the first item otherwise |
| AdvicePage.FormatOf | src/pages/AdvicePage.tsx:311 | the array format exactly for an array form |
| AdvicePage.AuthorizationHeader | src/pages/AdvicePage.tsx:328 | the header is never empty |
| AdvicePage.AuthorizationForwarded | src/pages/AdvicePage.tsx:324-331 | the proxy always forwards the page's `Authorization` header |
| AdvicePage.ProxyPath | src/pages/AdvicePage.tsx:307 | the path lies below `/api/nse/` and ends with the advice type |
| AdvicePage.SubmissionRoute | src/pages/AdvicePage.tsx:307 | the submission reaches the target of the lower-cased role and advice type |
| AdvicePage.MissingRoleRoutesAsAdviser | src/pages/AdvicePage.tsx:307 | with no role, the path says `undefined` and is routed as an adviser's |
| AdvicePage.AdviceBasesAgree | src/lib/postman/endpoints.ts:84 | the registry's NSE base and advice prefix make the proxy's advice base |
| AdvicePage.AdviceUrl | src/lib/postman/endpoints.ts:84 | a registry advice URL is the proxy's advice base, the family and the type |
| AdvicePage.AnalystTargetsMatchRegistry | src/lib/postman/endpoints.ts:78-334 | an analyst's submission of each form goes to the URL of the registry's `ra-` entry |
| AdvicePage.AdviserTargetsMatchRegistry | src/lib/postman/endpoints.ts:127-385 | an adviser's submission of each form goes to the URL of the registry's `ia-` entry |
| AdvicePage.AlgoTargetMatchesRegistry | src/lib/postman/endpoints.ts:396-402 | the algo form goes to the registry's algo URL, whatever the role |
| AdvicePage.AdviceItems.constructor | src/pages/AdvicePage.tsx:265 | one empty item |
| AdvicePage.AdviceItems.AddItem | src/pages/AdvicePage.tsx:284-286 | appends one empty item |
| AdvicePage.AdviceItems.RemoveItem | src/pages/AdvicePage.tsx:288-292 | nothing changes with one item left, so the list never empties; otherwise removes exactly the given index |
| AdvicePage.AdviceItems.UpdateItem | src/pages/AdvicePage.tsx:294-298 | changes only the given field of the given item |
| AdvicePage.AdviceItems.Reset | src/pages/AdvicePage.tsx:346-349 | back to one empty item |

## Left out

- The cryptographic primitives (`generateKey`, `importKey`, `exportKey` and both `encrypt` calls) and `getRandomValues` are parameters. Each `encrypt` call may reject, and a rejection becomes the encryption error. Only two facts about them are used: the key is 32 bytes and the IV is 12. A 16-byte GCM tag is a hypothesis of `Jwe.SegmentLengths`.
- `JSON.stringify` and `JSON.parse` are parameters. Object key order is not modelled, because objects are maps, so the header text is `stringify` of the header value rather than a fixed string.
- Strings are sequences of Unicode scalar values, where JavaScript strings are UTF-16 code units. Lengths, `substring`/`slice` positions and `/^./` differ for characters outside the Basic Multilingual Plane, and lone surrogates (which `TextEncoder` and `Buffer.byteLength` replace) cannot occur. The texts the core handles (base64, PEM, ISO times, field names, paths) are ASCII.
- `toLowerCase` and `toUpperCase` are modelled on ASCII letters only. Full Unicode case mapping is not modelled.
- `new URL(...)` is modelled only for the `https://host/path` URLs the proxy builds. Ports, user information and query strings do not occur there.
- The network, the HTTP server, the CORS and preflight handling, and the upstream call and its reply are not modelled. `src/lib/api/client.ts` and the Cloudflare functions are not part of this model.
- The request body stream is not modelled. The body arrives as one string.
- Persistence of the stores to local storage is not modelled.
- The zustand and React state plumbing is not modelled; each store and item list is a class whose methods overwrite its fields.
- Rendering, the form field layouts and display texts, the debounce and timer code, and the debug preview are not modelled. The three-second delay before the reset after a submission is not modelled either.
- `src/stores/configStore.ts` is not part of this model, because it holds only constants and setters.
- `Number(...)` conversions of input values are not modelled, because JSON numbers are reals.
- Endpoints: the key text is not modelled, only which key an entry uses. Example payloads are not modelled: `ApiStore.RequestState.SetSelectedEndpoint` takes the selected endpoint's example as a parameter.
- `Date.now()` and `new Date().toISOString()` are parameters. `EndpointForm.CreateEmptyItem` uses one instant for all of its date fields, where the source reads the clock once per field.
- The submission record that the advice page adds after a successful post is not modelled, because its id and timestamp come from the clock and its message from the upstream reply. Adding it is `AuthStore.Session.AddSubmission`.
- `EndpointForm.Items.UpdateItem`: requires an index inside the list. In JavaScript, assigning past the end would extend the array with holes.
- `AdvicePage.AdviceItems.UpdateItem`: requires an index inside the list, for the same reason.
- `EndpointForm.DatetimeDisplay`: models a string field value only. A missing value (`null` or `undefined`) is the empty string here, as `value ?? ''` makes it. For any other non-string value (a number, boolean, object or array) the source's `.replace` throws and the form does not render; the model's `string` parameter leaves that case out.
- `EndpointForm.InitialItems`: handles items that are not objects as JSON values, without JavaScript's object spread.
