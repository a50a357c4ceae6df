# MYOB sales-order node, modelled in Dafny

This project models the core of an n8n community node for the MYOB AccountRight API. It covers two pieces.

- **`execute`** (src/nodes/Myob.node.ts) loops over the workflow's input items. For the only supported resource/operation pair (`salesOrder` / `createItem`) it:
  - maps every `linesItem[].line` form entry to a MYOB line object;
  - assembles an "Item" sales-order payload;
  - POSTs it to `/Sale/Order/Item` through `myobRequest`;
  - turns the answer into output items.

  Any other pair throws `Operation not implemented`.

  As written, the payload's `Date: date` property (src/nodes/Myob.node.ts:163) reads an identifier that is declared nowhere. In JavaScript that line throws a `ReferenceError`, and TypeScript refuses to compile it. So, as written, the POST is never reached. The model assumes that `date` evaluates to `undefined`, which leaves the `Date` key out of the payload. Every member below that describes a request or its answer describes the code with line 163 neutralised in this way. These are MyobNode.ProcessItem (supported half), MyobNode.SalesOrderRequestShape, MyobNode.UndefinedAnswerOutputsCreated, MyobNode.NullAnswerOutputsEmptyObject, MyobNode.FullResponseOutputWhole, MyobNode.ArrayAnswerSpread, MyobNode.NoOutputOnlyForEmptyArray, and the success half of MyobNode.RunInOrder and MyobNode.Execute.
- **`myobRequest`** (src/transport/MyobApi.request.ts) sends the request and post-processes the answer:
  - It builds the MYOB header set. The company-file token is `Buffer.from(user + ":" + password).toString('base64')`.
  - It builds the request options, with the URI being `baseUrl + resource`.
  - It hands the options to the host's authenticated request helper.
  - It post-processes the answer: an `undefined` POST answer becomes a synthetic `201 Created`; a full response has its `body` extracted for GET and is returned whole otherwise; anything else passes through.

Modules:
- `Js` (js.dfy): JavaScript values, with truthiness, nullishness, `typeof … === 'object'`, `in` and property access.
- `Wrappers` (wrappers.dfy): `Option` and `Result`.
- `Bytes` (bytes.dfy): octets.
- `Utf8` (utf8.dfy): UTF-8 encoding and a strict decoder, which rejects overlong forms, surrogate code points, values above U+10FFFF and truncated or stray continuation octets.
- `Base64` (base64.dfy): Base64 with the standard alphabet and `=` padding, as in section 4 of RFC 4648. The decoder is strict and also rejects non-zero pad bits (section 3.5).
- `MyobApi` (myob_api.dfy): the transport helper.
- `MyobNode` (myob_node.dfy): `execute`.

How the host is represented:
- `getNodeParameter` becomes one `NodeParams` record per input item.
- `getCredentials` becomes a map of stored credential fields.
- The host's request helper becomes a function parameter, from the item index and the request options to `Returned(value)` or `Threw(error)`.

How the payload is represented:
- It is modelled twice:
  - as a record whose optional fields are `Option`s (`SalesOrder`, `OrderLine`);
  - in wire form (`OrderJson`, `LineJson`), where a property left `undefined` is not a key at all, as `JSON.stringify` leaves it out.
- Numbers are opaque reals. The code only forwards them and compares them with zero.

An answer that is an empty array produces no output item for its input item (MyobNode.NoOutputOnlyForEmptyArray). Every other answer produces at least one output item (src/nodes/Myob.node.ts:180).

## Model

| member | source | states |
|---|---|---|
| MyobNode.MapLine | src/nodes/Myob.node.ts:146-157 | A line always carries `Item = {UID: itemUid}`, `ShipQuantity = qty` and `UnitPrice = unitPrice`. Each optional field is present exactly when its input is truthy (non-empty text, non-zero number), and then equals it or references its UID. |
| MyobNode.MapLines | src/nodes/Myob.node.ts:145-146 | One mapped line per `line` wrapper, same length, same order. |
| MyobNode.DiscountsIndependent | src/nodes/Myob.node.ts:153-154 | The percent and amount discounts are decided independently: changing one input leaves the other output unchanged, and both can be present at once. |
| MyobNode.BuildOrder | src/nodes/Myob.node.ts:160-174 | `OrderType` is "Item" and `Customer` references `customerUid`. `IsTaxInclusive` is forwarded. Memo, purchase-order number, promised date, freight and freight tax code are absent exactly when the parameter is empty or zero, and otherwise carry it. `Lines` is the mapped collection, line by line. |
| MyobNode.LineJsonKeys | src/nodes/Myob.node.ts:147-157 | The serialised line has exactly the three mandatory keys plus one key per optional field that is set, and no other key. |
| MyobNode.LineJsonMandatory | src/nodes/Myob.node.ts:147-151 | In the serialised line, `Item`, `ShipQuantity` and `UnitPrice` hold the form's values unchanged. |
| MyobNode.LineJsonTextAndDiscounts | src/nodes/Myob.node.ts:152-154 | `Description`, `DiscountPercent` and `DiscountAmount` read the input when it is truthy and `undefined` otherwise. |
| MyobNode.LineJsonRefs | src/nodes/Myob.node.ts:155-156 | `TaxCode` and `Location` read `{UID: uid}` when the UID is non-empty and `undefined` otherwise. |
| MyobNode.OrderJsonKeys | src/nodes/Myob.node.ts:160-174 | The serialised order has exactly its four fixed keys plus one key per optional header field that is set. |
| MyobNode.OrderJsonFixed | src/nodes/Myob.node.ts:161-164 | In the serialised order, `OrderType` is "Item", `Customer` is `{UID: customerUid}` and `IsTaxInclusive` is the parameter. |
| MyobNode.OrderJsonText | src/nodes/Myob.node.ts:165-167 | `JournalMemo`, `CustomerPurchaseOrderNumber` and `PromisedDate` read the parameter when it is non-empty and `undefined` otherwise. |
| MyobNode.OrderJsonFreight | src/nodes/Myob.node.ts:168-172 | `Freight` reads the freight when it is non-zero. `FreightTaxCode` reads `{UID: uid}` when the UID is non-empty. Each reads `undefined` otherwise. |
| MyobNode.OrderJsonLines | src/nodes/Myob.node.ts:173 | `Lines` is an array with one serialised line per form line, in form order. |
| MyobNode.Normalize | src/nodes/Myob.node.ts:180 | An array answer yields its elements, `null`/`undefined` yields one `{}`, and anything else yields itself. The result is empty exactly for the empty array. |
| MyobNode.ProcessItem | src/nodes/Myob.node.ts:139-184 | Dispatch on resource and operation. Any pair other than `salesOrder`/`createItem` throws `Operation not implemented`, whatever the host would answer, so no request is made. For the supported pair, the outcome is the post-processed and normalised host answer to that one sales-order request. |
| MyobNode.SalesOrderRequestShape | src/nodes/Myob.node.ts:177 | The order request is a POST of the serialised order to `baseUrl + "/Sale/Order/Item"`, with an empty query string and the MYOB headers. |
| MyobNode.UndefinedAnswerOutputsCreated | src/nodes/Myob.node.ts:177-181 | An `undefined` answer to the POST outputs exactly one item, the synthetic `201 Created` object. |
| MyobNode.NullAnswerOutputsEmptyObject | src/nodes/Myob.node.ts:180-181 | A `null` answer outputs exactly one `{}`. |
| MyobNode.FullResponseOutputWhole | src/nodes/Myob.node.ts:177-181 | A full response (an object with `body` and `statusCode`) is output whole as one item, not unwrapped, because the method is POST. |
| MyobNode.ArrayAnswerSpread | src/nodes/Myob.node.ts:180-181 | An array answer is spread: one output item per element, in order. |
| MyobNode.NoOutputOnlyForEmptyArray | src/nodes/Myob.node.ts:180-181 | A processed item yields no output exactly when the answer is an empty array. |
| MyobNode.RunInOrder | src/nodes/Myob.node.ts:138-185 | The loop succeeds iff every item's step succeeds, and its output is then their outputs appended in input order. On failure, the error is that of the first failing item, after all earlier items succeeded. |
| MyobNode.Execute | src/nodes/Myob.node.ts:134-188 | The same, with each item's step being the per-item processing of `execute`. |
| MyobNode.OutcomeOfItem | src/nodes/Myob.node.ts:138-143 | The outcome recorded for item `i` is the per-item processing of that item's parameters, with the host seeing index `i`. |
| MyobNode.CollectedPrefix | src/nodes/Myob.node.ts:138-185 | The outputs of the first `m` items are a prefix of those of the first `n` items, for `m <= n`. |
| MyobNode.ItemOutputsInPlace | src/nodes/Myob.node.ts:138-185 | The outputs of item `k` sit contiguously in the output, immediately after those of the items before it. |
| MyobApi.Headers | src/transport/MyobApi.request.ts:15-21 | The header map has exactly the five MYOB headers. Version is "v2", the key is `clientId` as a string, both content headers are `application/json`, and the token is the company-file token. |
| MyobApi.CompanyFileToken | src/transport/MyobApi.request.ts:17 | The token Base64-decodes to the UTF-8 octets of `username + ":" + password`. |
| MyobApi.LoginOctets | src/transport/MyobApi.request.ts:17 | The octets under the token are the user name's UTF-8 octets, one `:` octet (0x3A), then the password's UTF-8 octets. |
| MyobApi.TokenExample | src/transport/MyobApi.request.ts:17 | User `a` with password `b` gives the token `YTpi`. |
| MyobApi.TokenDecodesToLogin | src/transport/MyobApi.request.ts:17 | Base64 then UTF-8 decoding of the token gives back exactly `username + ":" + password`. |
| MyobApi.TokenDeterminesLogin | src/transport/MyobApi.request.ts:17 | Two credential sets give the same token iff they give the same `username:password` text. |
| MyobApi.BuildOptions | src/transport/MyobApi.request.ts:23-31 | The URI is the base URL followed by the resource, with nothing inserted. Method, query string and body are forwarded unchanged. `json` and `returnFullResponse` are set, and the headers are the MYOB header map. |
| MyobApi.IsFullResponse | src/transport/MyobApi.request.ts:51 | A value counts as a full response exactly when it is an object that carries both a `body` and a `statusCode` key. |
| MyobApi.PostProcess | src/transport/MyobApi.request.ts:39-61 | `undefined` on POST becomes the synthetic `201 Created`. A full response becomes its `body` on GET and stays whole otherwise. Anything else is returned unchanged. |
| MyobApi.SyntheticIsFullResponse | src/transport/MyobApi.request.ts:41-47 | The synthetic answer is itself a full response, with status 201 and a `null` body. |
| MyobApi.PostNeverUndefined | src/transport/MyobApi.request.ts:39-61 | A POST never yields `undefined`, whatever the answer. For every other method, an `undefined` answer is passed through as `undefined`. |
| MyobApi.PostProcessIdempotent | src/transport/MyobApi.request.ts:39-61 | For every method but GET, post-processing twice is the same as once. |
| MyobApi.GetNotIdempotent | src/transport/MyobApi.request.ts:51-55 | For GET it is not: a full response whose body is again a full response is unwrapped a second time. |
| MyobApi.Request | src/transport/MyobApi.request.ts:33-65 | The host sees exactly the built options. What it throws is re-raised unchanged, and what it returns is post-processed. |
| Base64.RoundTrip | src/transport/MyobApi.request.ts:17 | Decoding a Base64 encoding gives back the octets. |
| Base64.Canonical | src/transport/MyobApi.request.ts:17 | Whatever decodes re-encodes to the same text, so encoding is a bijection onto the accepted strings. |
| Base64.Encode | src/transport/MyobApi.request.ts:17 | The encoding has length `4 * ceil(n / 3)` and consists of alphabet characters and `=` only. |
| Base64.TestVectorsShort | src/transport/MyobApi.request.ts:17 | The section 10 test vectors of RFC 4648 for "", "f", "fo" and "foo". |
| Base64.TestVectorFoob | src/transport/MyobApi.request.ts:17 | The section 10 test vector of RFC 4648 for "foob". |
| Base64.TestVectorFooba | src/transport/MyobApi.request.ts:17 | The section 10 test vector of RFC 4648 for "fooba". |
| Base64.TestVectorFoobar | src/transport/MyobApi.request.ts:17 | The section 10 test vector of RFC 4648 for "foobar". |
| Utf8.Encode | src/transport/MyobApi.request.ts:17 | A string of `n` characters encodes to between `n` and `4n` octets. It encodes to exactly `n` octets iff it is ASCII, and then each octet is its character's code. |
| Utf8.EncodeAppend | src/transport/MyobApi.request.ts:17 | Encoding a concatenation gives the concatenation of the encodings, as `Buffer.from` of `user + ":" + password` does. |
| Utf8.RoundTrip | src/transport/MyobApi.request.ts:17 | Decoding the UTF-8 encoding of a string gives back the string. |
| Utf8.Canonical | src/transport/MyobApi.request.ts:17 | Whatever decodes re-encodes to the same octets, so encoding is a bijection onto the accepted octet strings. |
| Utf8.RejectsOverlongAndSurrogates | src/transport/MyobApi.request.ts:17 | Overlong two-, three- and four-octet forms and an encoded surrogate are rejected. |
| Utf8.EncodeChar | src/transport/MyobApi.request.ts:17 | A character encodes to one to four octets: a single octet exactly for ASCII, with continuation octets after the first. |

## Left out

- The node description (the form schema) and both credential classes: static configuration with no behaviour.
- `requestWithAuthentication`, OAuth2 and HTTP: host I/O. The host's answer is an arbitrary input value, or an arbitrary thrown value.
- `getNodeParameter`, `getCredentials`, `getInputData` and `prepareOutputData`: host runtime calls. They are replaced by the per-item parameter records, a credential map and the list of outputs returned.
- `async`/`await`: the calls are strictly sequential, so they are plain function calls here.
- The `Date: date` payload property (src/nodes/Myob.node.ts:163): as written it throws a `ReferenceError` (or fails to compile), so no sales order is ever posted. The model assumes that `date` is `undefined`, so the payload has no `Date` key. The success-path members listed at the top describe the code under that assumption, and the thrown error itself is not modelled.
- Credentials are read from the OAuth2 credential type, which declares no company-file user name or password. The model takes the credential fields as a map. A missing field renders as the text `undefined`, as a template literal and `String(...)` render it. The mismatch itself is not modelled.
- NaN, and floating point in general: numbers are only forwarded and compared with zero, so they are opaque reals whose falsy value is `0`.
- Key order of objects: objects are maps.
- MyobNode.MapLine: a line field that is missing from the form entry, or of another type, is not modelled. Every line entry is assumed to carry its eight fields with their form types, as the form's defaults ensure.
- Utf8.RoundTrip: a JavaScript string may hold a lone UTF-16 surrogate, which `Buffer.from` replaces by U+FFFD, so its round trip does not hold. Strings here are sequences of Unicode scalar values, which excludes lone surrogates.
- `continueOnFail`: the node never consults it, so a throwing item always ends the run.
