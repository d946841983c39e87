# Lumina forwarding core in Dafny

Lumina is a small HTTP reverse proxy. A request to `/api/<route>/<rest>` is
matched to an upstream base URL from a route table built at startup. The request
is then forwarded: same method, body and headers, minus `host`. The upstream's
status, headers and body are relayed back. Every failure becomes a JSON error
response. This project models the deterministic logic under the framework
plumbing, with HTTP values as plain data:

- headers are sequences of `(name, value)` pairs, with names in the lower-case
  form the `http` crate stores;
- bodies are `seq<bv8>`;
- the HTTP client's `send` is a function parameter whose outcome is either
  `Delivered(response)` or `NetFail(reason)`.

A handler run yields an `Exchange`: the handler's result, plus the outbound
request handed to `send`, or `None` when nothing was sent.

Modules:

- `Results`: `Option`, `Result`.
- `MapFold`: a fold of map `insert`s. Both the route-table build and the
  response-header copy are instances of it.
- `Http`: status codes (100 to 999, what `http::StatusCode` accepts), headers,
  the JSON values the error bodies use, and responses.
- `Errors` (src/error.rs): `LuminaError`, its `Display` text, the
  (status, message) table, and `into_response`.
- `Proxy` (src/proxy/handler.rs): `Forward`, a pure specification of
  `handle_proxy`. `HandleProxy` is the method with the code's two loops, proved
  equal to `Forward`.
- `Gateway` (src/main.rs): the route-table build loop and
  `handle_proxy_wrapper`.

Behaviour of the code that the model keeps as it is:

- A duplicate route path silently overwrites the earlier one; it is not a
  configuration error.
- The upstream URL is the upstream base with the entire inbound
  path-and-query appended, so `/api/<route>/` is kept; the URL is not
  rebuilt from the remainder.
- Response headers are copied through unfiltered; no hop-by-hop header is
  stripped.
- Upstream calls have no timeout; `timeout_ms` is read and never used.
- The error variants are the code's five: `ConfigError`, `YamlError`,
  `InvalidRoute`, `UpstreamError` and `Internal`. A body-read failure is an
  `Internal` error.

## Model

| member | source | states |
|---|---|---|
| `MapFold.InsertAllKeys` | src/main.rs:57-61 | after the in-order inserts, the keys are the old keys plus every inserted key |
| `MapFold.InsertAllLastWins` | src/main.rs:57-61 | every key holds the value of its last entry: a later insert overwrites an earlier one |
| `MapFold.InsertAllKeepsOthers` | src/main.rs:57-61 | a key that no entry mentions keeps its old value |
| `MapFold.PrefixKeysIncluded` | src/main.rs:57-61 | inserting only adds: the keys built from a prefix of the entries are a subset of the keys built from all of them |
| `Gateway.BuildTable` | src/main.rs:57-61 | the route table's keys are exactly the configured paths (every configured path is a key, every key is a configured path); each path maps to the upstream of the last route with that path (last write wins, no error) |
| `Gateway.BuildUpstreams` | src/main.rs:57-61 | the insert loop produces exactly `BuildTable(routes)`: same key set, last-configured upstream per path |
| `Gateway.BuildTablePrefix` | src/main.rs:57-61 | the table built from any prefix of the routes is a sub-domain of the final table |
| `Gateway.DuplicatePathLastWins` | src/main.rs:58-59 | two routes with path `users` give a one-entry table holding the second upstream |
| `Gateway.TimeoutIgnored` | src/main.rs:58-59 | routes that differ only in `timeout_ms` build the same table |
| `Gateway.RebuiltPathInjective` | src/main.rs:97 | the rebuilt string `/api/<route>/<remainder>` determines both route and remainder when the route holds no `/` |
| `Gateway.UrlKeepsApiPrefix` | src/proxy/handler.rs:26-34 | for an inbound `/api/<route>/<remainder><query>`, the outbound URL is base ++ `/api/<route>/<remainder><query>`; the prefix is not stripped |
| `Gateway.HandleProxyWrapper` | src/main.rs:90-103 | the handler's response passes through on `Ok`; on `Err(e)` the response is exactly `IntoResponse(e)`; only `route` reaches the handler; an unknown route gives 404 with the JSON body and sends nothing; a send failure gives 502 |
| `Errors.Display` | src/error.rs:11-24 | the Display text starts with the variant's prefix (for example "Invalid route mapping: ") and the rest of it is exactly the payload |
| `Errors.DisplayInjective` | src/error.rs:11-24 | two errors with equal Display text are equal: the text fixes the variant and the payload's text |
| `Errors.Classify` | src/error.rs:29-36 | the status is one of 404, 500, 502; it is 404 iff `InvalidRoute` and 502 iff `UpstreamError`; `InvalidRoute` shows its message verbatim; every other variant gets a fixed sanitized message ("Configuration error" for config and YAML errors, "Upstream error", "Internal server error") |
| `Errors.IntoResponse` | src/error.rs:27-48 | status from the table; the body is a JSON object with exactly the members `error` and `status`; `status` equals the response status and `error` is the table's message; content type `application/json` |
| `Errors.PayloadNeverExposed` | src/error.rs:29-36 | two non-`InvalidRoute` errors of the same variant give the same response, whatever their payloads |
| `Proxy.WithoutHost` | src/proxy/handler.rs:41-45 | no forwarded header is named `host`; a header is forwarded iff it was received and is not `host` |
| `Proxy.WithoutHostConcat` | src/proxy/handler.rs:41-45 | filtering distributes over concatenation, so forwarded headers keep their inbound order |
| `Proxy.WithoutHostCounts` | src/proxy/handler.rs:41-45 | every non-`host` header is forwarded as many times as it was received (duplicates kept); `host` zero times |
| `Proxy.WithoutHostKeepsHostless` | src/proxy/handler.rs:41-45 | a header list with no `host` is forwarded unchanged |
| `Proxy.HostRemovedInAnyCase` | src/proxy/handler.rs:42 | header names are lower-case by type (`HeaderName`), so no forwarded header equals `host` ignoring ASCII case |
| `Proxy.CopiedHeaders` | src/proxy/handler.rs:58-63 | the response header names are exactly the upstream header names; each holds the value of its last upstream occurrence |
| `Proxy.Forward` | src/proxy/handler.rs:16-70 | unknown route: `InvalidRoute("No upstream configured for route '<route>'")` and nothing sent; a request is sent iff the route exists and the body was read; unreadable body: `Internal` and no send; outbound URL = base ++ path-and-query (`""` if absent); method, body and host-filtered headers forwarded; send failure: `UpstreamError`; success: upstream status, copied headers, body relayed |
| `Proxy.ForwardHeaders` | src/proxy/handler.rs:41-45 | the loop that appends each non-`host` header to the request builder yields exactly `WithoutHost(inbound)` |
| `Proxy.CopyHeaders` | src/proxy/handler.rs:59-63 | the loop that inserts each upstream header into the response's header map yields exactly `CopiedHeaders(upstream)` |
| `Proxy.HandleProxy` | src/proxy/handler.rs:16-70 | the handler, with its two loops as `ForwardHeaders` and `CopyHeaders`, computes exactly `Forward`'s exchange |

## Left out

- Serving, routing and I/O: the async runtime, the axum server and listener,
  and path-template matching (`/api/:route/*path`, src/main.rs:33-88). These
  are framework I/O and concurrency. The wrapper takes its two captures as
  inputs.
- The network: reqwest's `send` (src/proxy/handler.rs:55). It is a function
  parameter, so the model covers every outcome, including a URL that fails to
  parse.
- Response streaming: `Body::from_stream(res.bytes_stream())`
  (src/proxy/handler.rs:65). The body is modelled as the upstream's bytes,
  passed through unchanged.
- Response builder failure (src/proxy/handler.rs:66-67). The builder only gets
  an already-valid `StatusCode` and header values, so `body` cannot fail, and
  the model has no such branch.
- Header iteration order: the header sequences stand for the order in which
  `HeaderMap` yields its (name, value) pairs; that order is not derived.
- Logging: `tracing::error!` in `into_response` (src/error.rs:39) and the
  per-route `info!` (src/main.rs:60). Both are side effects only.
- JSON serialisation by serde_json. The error body is modelled as a JSON value,
  not as its byte encoding.
- Configuration loading (`AppConfig::load`: a file read and YAML parsing),
  command-line parsing, bind-address parsing, metrics and the health endpoint.
  `RouteConfig` is taken as a plain input record.
- Header values are modelled as text, not as raw bytes.
- Error payloads: `ConfigError`, `YamlError`, `UpstreamError` and `Internal`
  wrap foreign error values (`std::io::Error`, `serde_yaml::Error`,
  `reqwest::Error`, `anyhow::Error`). Each is modelled as its Display text
  only. Two foreign errors with the same text, such as `io::Error`s of
  different kinds with one message, are therefore one value here. Their Debug
  form, which is what gets logged, is not modelled.
