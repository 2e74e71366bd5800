# crane: a Dafny model of the routing, response and status core

crane is a small multi-threaded HTTP/1.1 server library written in Rust. A
`WebServer` is configured with a fluent chain: `bind`, then `route(path,
handler)`, `default_route(handler)` and `read_timeout(duration)`. It then
serves each connection the same way:

1. It reads once into a 1024-byte buffer.
2. It takes the request target, which is the second whitespace-separated
   token of the first line.
3. It parses `"http://localhost" + target` with the `url` crate.
4. It picks the first route whose path equals the URL path. If none
   matches it uses the default route, and if there is no default it writes
   nothing.
5. It folds the decoded query pairs into a `Query` map.
6. It writes the handler's `Response` in the text form that
   `impl Display for Response` produces.

Responses are made with a fluent `ResponseBuilder`. A separate
`HttpStatus` enum lists the status codes, with a display name and a
`get_string` text.

The project has six modules, one file each:

| file | module | models |
|---|---|---|
| `wrappers.dfy` | `Wrappers` | `Option`, used for the error paths |
| `text.dfy` | `Text` | the `str` operations the server uses: `char::is_whitespace`, `split_whitespace`, `lines().next()`, one-character `replace` and `join` |
| `decimal.dfy` | `Decimal` | the decimal text of an integer as `{}` writes it, and its parse |
| `status.dfy` | `Status` | `src/status.rs` |
| `response.dfy` | `Responses` | `src/response.rs`, plus `ReadResponse`, a reader for the HTTP/1.1 message framing of section 2.1 of RFC 9112, which ends lines only at CRLF, against which the round trips of the written text are stated |
| `webserver.dfy` | `Server` | the pure parts of `src/webserver.rs` |

Handlers are Dafny total functions `Query -> Response`. A compiled program
cannot compare function values, so the route choice is reported by the
index of the chosen route, which also says which of two routes with the
same path wins. The `url`
crate is a parameter, `parseUrl: string -> Option<Url>`. A `Url` holds the
path and the sequence of decoded query pairs, and `None` stands for the
parse failure that `unwrap` turns into a panic. The bytes of the buffer are
modelled as characters. What was received is padded with `'\0'` up to 1024
characters, as the zeroed buffer is. NUL is not whitespace in Rust, so it
never splits a token.

## Model

| member | source | states |
|---|---|---|
| `Server.Bind` | src/webserver.rs:61-68 | a bound listener gives a server with no route, no default route and no timeout; a failed bind gives `None` |
| `Server.WithReadTimeout` | src/webserver.rs:74-77 | `read_timeout` sets the timeout; routes and default route are unchanged |
| `Server.WithDefaultRoute` | src/webserver.rs:86-92 | `default_route` replaces the default handler; routes and timeout are unchanged |
| `Server.WithRoute` | src/webserver.rs:95-102 | `route` appends exactly `(path, f)` after the earlier routes, which are kept in order; default and timeout are unchanged |
| `Server.ConfigureMeaning` | src/webserver.rs:74-102 | after any chain of `route`, `default_route` and `read_timeout` calls: the routes are the old ones followed by every added route in call order, and the last default and the last timeout set win |
| `Server.GetRequestedPath` | src/webserver.rs:162-166 | the target is the second token of the first line, or "/" when that line has fewer than two tokens; it is never empty and holds no whitespace |
| `Server.RequestLineTarget` | src/webserver.rs:162-166 | for a request line "method target version" followed by CRLF and anything at all, the result is exactly the target |
| `Server.ReceivedRequestTarget` | src/webserver.rs:127-131 | the same holds through the zero-padded 1024-byte buffer |
| `Server.OneWordFallsBack` | src/webserver.rs:163-164 | a request with no whitespace at all, the empty one included, yields "/": through the zero-padded buffer its first line is one single token |
| `Server.Nth` | src/webserver.rs:164 | `nth(1)`: an element exactly when the index is in range, and then the element at that index; `GetRequestedPath` takes `unwrap_or("/")` of it |
| `Server.RequestBuffer` | src/webserver.rs:127-130 | the buffer is 1024 long, starts with what was received and is zero after it |
| `Server.FindRoute` | src/webserver.rs:136-140 | the index found holds the path and no earlier route does; none is found exactly when no route has the path |
| `Server.Choose` | src/webserver.rs:142-143 | a route is used exactly when one has the path, and it is the first such route; the default is used exactly when it is set and no route has the path; nothing is used exactly when neither holds |
| `Server.ShadowedRouteNeverChosen` | src/webserver.rs:136-140 | of two routes with the same path, the later one is never chosen |
| `Server.ResolveHandler` | src/webserver.rs:142-143 | the handler of the first route with the path when there is one, else the default route's handler; no handler exactly when no route matches and there is no default |
| `Server.AddPair` | src/webserver.rs:149-152 | `entry(k).or_default().push(v)`: `k` becomes a key, every other key keeps its values, and the values of `k` gain `v` at the end |
| `Server.CollectQuery` | src/webserver.rs:145-153 | definition: the pairs folded in order with `AddPair`; its meaning is stated by `CollectQueryMeaning` and `CollectQueryCount` |
| `Server.CollectQueryMeaning` | src/webserver.rs:145-153 | the query map's keys are exactly the keys of the pairs, and each key maps to the values paired with it, in their order |
| `Server.CollectQueryCount` | src/webserver.rs:145-153 | the distinct keys in first-appearance order are the map's keys, and the map holds as many values as there were pairs |
| `Server.CollectQueryExamples` | src/webserver.rs:145-153 | no pair gives the empty map; `a=b` gives `{a: ["b"]}`; `a=b&a=c` gives `{a: ["b", "c"]}` |
| `Server.HandleConnection` | src/webserver.rs:123-160 | the outcome is the URL panic exactly when the URL does not parse, and nothing is written only when no route has the URL's path; the full dispatch is `HandleConnectionDispatch` |
| `Server.HandleConnectionDispatch` | src/webserver.rs:123-160 | once the URL is parsed: the first route with its path answers with the query map, else the default route does, else nothing is written |
| `Server.RegisteredRouteServes` | src/webserver.rs:95-155 | a route added for a path no earlier route has serves every request for that path, whatever is configured after it |
| `Server.FooIsServed` | src/webserver.rs:123-160 | with "/foo" as the only route, "GET /foo HTTP/1.1" is answered by the "/foo" handler with the empty query |
| `Server.BarIsDropped` | src/webserver.rs:142-159 | on the same server, "GET /bar HTTP/1.1" matches nothing and nothing is written |
| `Server.DefaultRouteAnswers` | tests/routes_test.rs:11-28 | a server with only a default route answers "GET / HTTP/1.1" with the default handler and the empty query |
| `Server.RoutesAndQuery` | tests/routes_test.rs:38-55 | a server with route "/get/data" answers "GET /get/data?a=b HTTP/1.1" with its handler and the query `{a: ["b"]}` |
| `Responses.NewBuilder` | src/response.rs:9-15 | a new builder has status 200, no headers and an empty body |
| `Responses.WithStatus` | src/response.rs:17-20 | `status` sets the status; headers and body are unchanged |
| `Responses.WithHeader` | src/response.rs:22-25 | `header` appends exactly `(key, value)` after the earlier headers, which are kept in order; duplicate keys are allowed; status and body are unchanged |
| `Responses.WithBody` | src/response.rs:27-30 | `body` replaces the body; status and headers are unchanged |
| `Responses.Build` | src/response.rs:32-38 | the response carries exactly the builder's status, headers and body |
| `Responses.RunMeaning` | src/response.rs:17-30 | after any builder chain: the last status set wins, every header added is kept in call order, and the last body set wins |
| `Responses.Render` | src/response.rs:47-61 | definition of the text as written; its meaning is stated by `RenderRoundTrip`, `RenderWithoutHeaders` and `RenderInjective` |
| `Responses.RenderTerminated` | src/response.rs:56-60 | definition of the corrected layout, each header line ended by CRLF and then one empty line; its meaning is stated by `RenderTerminatedRoundTrip` |
| `Responses.RenderNoHeaders` | src/response.rs:49-60 | with zero headers the text is "HTTP/1.1 <status> OK", three CRLFs, then the body |
| `Responses.JoinThenCrlf` | src/response.rs:49-58 | one or more header lines joined by CRLF, then one more CRLF, are the same text as each line followed by CRLF |
| `Responses.RenderAgreesWithHeaders` | src/response.rs:49-60 | with at least one header, the text as written has every header line ended by CRLF, then one empty line, then the body |
| `Responses.RenderRoundTrip` | src/response.rs:47-61 | with at least one header, and no CR in any header and no colon in any key, the text reads back as the status, reason "OK", the headers in order and the body verbatim |
| `Responses.RenderWithoutHeaders` | src/response.rs:56-60 | with zero headers, the text reads back with CRLF in front of the body |
| `Responses.RenderInjective` | src/response.rs:47-61 | distinct well-formed responses are written as distinct texts |
| `Responses.EmptyHeadersShiftBody` | src/response.rs:56-60 | for a response built with only a body, the text as written reads back with body CRLF + body, never the body itself; the corrected layout reads back with the body |
| `Responses.RenderTerminatedRoundTrip` | src/response.rs:47-61 | in the corrected layout every well-formed response reads back exactly, with or without headers |
| `Responses.HelloWorldRoundTrip` | tests/routes_test.rs:30-36 | status 200 with `Content-Type: text/plain` and body "Hello, World!" reads back as that status, header and body |
| `Decimal.ParseFormat` | src/response.rs:58-59 | the decimal text of the status reads back as the status |
| `Decimal.FormatInjective` | src/status.rs:69-70 | different codes have different decimal texts |
| `Decimal.Format` | src/status.rs:69-70 | the decimal text of a code is non-empty, all digits, has no leading zero and holds no space |
| `Text.Tokens` | src/webserver.rs:164 | `split_whitespace`: every token is non-empty and holds no whitespace; `TokensCons` and `TokensOfWhitespace` fix the whole result |
| `Text.FirstLine` | src/webserver.rs:163 | `lines().next().unwrap_or("")`: a prefix of the text with no line feed, and the whole text when it has no line feed; `FirstLineCrlf` and `FirstLineLf` fix it for a line ended by CRLF or by a bare LF |
| `Text.Join` | src/response.rs:49-54 | definition of `join`; its meaning for the header lines is stated by `Responses.JoinThenCrlf` |
| `Text.Replace` | src/status.rs:76 | `replace` of one character: same length, and each character replaced exactly where it equals the one searched for |
| `Text.TokensCons` | src/webserver.rs:164 | `split_whitespace` reads whitespace, then one whole token, then the rest starting at whitespace, giving that token first |
| `Text.FirstLineCrlf` | src/webserver.rs:163 | `lines().next()` of a text whose first line ends in CRLF is that line without the CRLF |
| `Text.FirstLineLf` | src/webserver.rs:163 | `lines().next()` of a text whose first line ends in a bare LF, not preceded by CR, is that line without the LF |
| `Status.Code` | src/status.rs:6-64 | every discriminant lies between 100 and 511 |
| `Status.CodeRoundTrip` | src/status.rs:6-64 | every variant is found again from its discriminant |
| `Status.CodeInjective` | src/status.rs:4-64 | no two variants share a discriminant |
| `Status.UnlistedCodes` | src/status.rs:8-43 | 102, 306 and 419 belong to no variant |
| `Status.CodeExamples` | src/status.rs:9-63 | `OK` is 200, `Not_Found` is 404 and `Network_Authentication_Required` is 511 |
| `Status.Display` | src/status.rs:74-78 | the display name is the identifier with every `_` shown as a space, of the same length, and it holds no `_` |
| `Status.DisplayExample` | src/status.rs:38 | `URI_Too_Long` is displayed as "URI Too Long" |
| `Status.Identifier` | src/status.rs:7-63 | definition: the variant's identifier as `{:?}` writes it at src/status.rs:76; `Display` shows it with spaces |
| `Status.GetString` | src/status.rs:67-71 | definition of "<code> <name>"; its meaning is stated by `GetStringRoundTrip` and `GetStringInjective` |
| `Status.GetStringRoundTrip` | src/status.rs:67-71 | "<code> <name>" determines the variant: the code and name read back from it give the variant again |
| `Status.GetStringInjective` | src/status.rs:67-71 | distinct variants have distinct `get_string` texts |
| `Status.GetStringExample` | src/status.rs:67-71 | `Not_Found` gives "404 Not Found" |

## Left out

- TCP and threads are not modelled. This covers binding the listener and `get_addr`, the accept loop in `start`, `stream.read`, `write!` and `flush`, the `scoped_threadpool` pool and `NUM_THREADS`. `Bind` takes whether the operating system bound the socket as a parameter.
- The read timeout's effect on the socket is not modelled. Only the field it sets is.
- Only the URL-parse panic at src/webserver.rs:134 is modelled, as `UrlPanic`. The read error or read timeout at src/webserver.rs:128, the UTF-8 decode at src/webserver.rs:130, and the write and flush at src/webserver.rs:157-158 have no counterpart. A short read needs no panic: `received` is any text of at most 1024 characters. A byte is modelled as one character, so the model covers ASCII requests.
- The `url` crate is a parameter, not a model. Path normalisation, percent-decoding and the form-urlencoded rules of the WHATWG URL Standard stay inside it. Requests whose first line is not a request line are covered by `GetRequestedPath` but not by the end-to-end lemmas.
- The iteration order of Rust's `HashMap` and its capacity hint have no counterpart, because the `Query` is a Dafny map.
- `HttpStatus` plays no part in the written response: the status line's reason text is always "OK", as in the code. The model keeps that behaviour rather than filling in the status's name.
- `Responses.RenderRoundTrip` holds only for headers with no CR in the key or value and no colon in the key. The reader `ReadResponse` takes only the field shape the serialiser writes, "name: value". It ends lines only at CRLF, so a bare LF in a header stays inside it, and it keeps field values verbatim, where an RFC 9112 field parser would trim surrounding spaces.
- The crate-level doc example in `src/lib.rs` uses an older `bind(addr, closure)` API that the code no longer has. It is not modelled.

## Findings

| source | as written | input that shows it | evidently intended | confidence | as-written member | corrected member |
|---|---|---|---|---|---|---|
| src/response.rs:56-60 | The header lines are joined by CRLF and then followed by two CRLFs. With zero headers this writes "HTTP/1.1 200 OK\r\n\r\n\r\n" + body. The empty line then comes first, and the extra CRLF becomes the start of the body. | `ResponseBuilder::new().body("x").build()` is written as "HTTP/1.1 200 OK\r\n\r\n\r\nx", which a reader following RFC 9112 reads as body "\r\nx" | Each header line ends with CRLF, and then one empty line follows (section 2.1 of RFC 9112). The two layouts agree whenever there is at least one header. | medium, not executed | `Responses.EmptyHeadersShiftBody` (on `Responses.Render`) | `Responses.RenderTerminatedRoundTrip` (on `Responses.RenderTerminated`) |
