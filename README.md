# flapjack-diner, modelled in Dafny

A model of the client library for the Flapjack monitoring service's HTTP API
(`Flapjack::Diner`). Each endpoint method validates and encodes its arguments
with `prepare`, builds a request path and query string (or a form body) and
hands it to HTTParty; the JSON reply goes through `jsonify`. The model keeps
everything that is decided inside the library and makes the rest parameters:

- `wrappers.dfy` (`Wrappers`): `Option` for Ruby's `nil`, `Result` for a call
  that ends in a `raise`.
- `decimal.dfy` (`Decimal`): `Integer#to_s`, the string an `Integer` parameter
  is sent as, with its inverse.
- `query.dfy` (`FormQuery`): the `key=value` pairs joined by `&` that every
  endpoint sends, the `nil` query for no pairs, and a reader that splits such a
  string back into pairs.
- `diner.dfy` (`FlapjackDiner`): `prepare`, the nine endpoints as functions
  returning the `Get`/`Post` request they issue (or the validation error raised
  before any request), `protocol_host_port`, `request_uri`, `jsonify`, and
  `Call`, which issues a request only when validation passed.

`URI.escape` and `Time#iso8601` are the two function fields of an `Encoders`
value that every operation takes, so every proof holds for whatever those
library functions compute. The network (HTTParty's `get`/`post`) and
`JSON.parse` are function parameters of `Call` and `Jsonify`. The base URL is
not ambient state: `protocol_host_port` takes what its pattern captured.

The four report endpoints (`scheduled_maintenances`, `unscheduled_maintenances`,
`outages`, `downtime`) are four copies of one body in the source and one
function, `ListReport`, over the enumeration `Report` here.

Three behaviours of the code that are easy to misread:

- `jsonify` returns `nil` only for a missing response or a missing (`nil`)
  body. An empty string body is truthy in Ruby and goes to `JSON.parse`. It
  does not yield "no result".
- A GET request is issued with `request_uri` only: the path and the query. The
  protocol, host and port that `URI::HTTP.build` receives never reach the
  request, because HTTParty prepends its own configured base URI.
- A check given as any non-nil value, even an empty string, appends `/` and the
  check. In Ruby the escaped string is always truthy.

## Model

| member | source | states |
|---|---|---|
| FlapjackDiner.Prepare | lib/flapjack-diner.rb:153-167 | `prepare` yields at most one pair per declared parameter |
| FlapjackDiner.PrepareSucceedsIff | lib/flapjack-diner.rb:154-159 | `prepare` succeeds exactly when no parameter is a required one without a value or a present one of the wrong class |
| FlapjackDiner.PrepareReportsFirstOffence | lib/flapjack-diner.rb:154-159 | a failing `prepare` raises for an offending parameter with no offending parameter before it in declaration order |
| FlapjackDiner.PrepareEncodesPresent | lib/flapjack-diner.rb:154-166 | a successful `prepare` yields exactly the present parameters, in declaration order, each with its escaped string form |
| FlapjackDiner.PrepareOutput | lib/flapjack-diner.rb:160-166 | every present parameter is sent as the escape of its string form (ISO 8601 for a `Time`), and every pair sent comes from a present parameter |
| FlapjackDiner.PrepareDropsAbsent | lib/flapjack-diner.rb:157-166 | with distinct names, a parameter whose value is nil never appears among the pairs sent |
| FlapjackDiner.PrepareMissingRequired | lib/flapjack-diner.rb:155-156 | a required parameter without a value makes `prepare` raise, with that parameter's key when nothing before it offends |
| FlapjackDiner.PrepareWrongClass | lib/flapjack-diner.rb:159 | a present value that is not an instance of its declared class makes `prepare` raise, naming that key and class when nothing before it offends |
| FlapjackDiner.FirstOffenceReported | lib/flapjack-diner.rb:154-159 | an offending parameter makes `prepare` fail, and it is the one raised when nothing before it offends |
| FlapjackDiner.Present | lib/flapjack-diner.rb:166 | the kept parameters are exactly those with a non-nil value |
| FlapjackDiner.Sent | lib/flapjack-diner.rb:157-166 | a parameter contributes a pair exactly when its value is non-nil |
| FlapjackDiner.Message | lib/flapjack-diner.rb:156-159 | the exception message begins with the offending key in quotes |
| FlapjackDiner.PrepareArgs | lib/flapjack-diner.rb:71-72 | the entity is checked before the check; a missing entity is reported first |
| FlapjackDiner.PrepareMaintenance | lib/flapjack-diner.rb:60-62 | start time is checked (missing, then not a `Time`) before duration (missing, then not an `Integer`); the pairs are start time, duration, then the summary if given |
| FlapjackDiner.PrepareTimeFilters | lib/flapjack-diner.rb:73-74 | an optional start or end time that is not a `Time` raises, start time first; otherwise the present filters are sent in order |
| FlapjackDiner.AppendCheckOf | lib/flapjack-diner.rb:37 | `/` and the escaped check are appended to the path if and only if a check was given |
| FlapjackDiner.RequestUriWithQuery | lib/flapjack-diner.rb:82-83 | the request target is the path alone when there are no pairs, and the path, `?` and the joined pairs otherwise |
| FlapjackDiner.Entities | lib/flapjack-diner.rb:18-20 | `entities` is a GET of `/entities` |
| FlapjackDiner.Checks | lib/flapjack-diner.rb:22-30 | fails with the missing `entity` exactly when no entity is given; otherwise GETs `/checks/` and the escaped entity |
| FlapjackDiner.Status | lib/flapjack-diner.rb:32-44 | fails exactly when no entity is given; GETs `/status/<entity>`, with `/<check>` appended if and only if a check is given |
| FlapjackDiner.Acknowledge | lib/flapjack-diner.rb:46-55 | entity, then check, are required; POSTs to `/acknowledgments/<entity>/<check>` with body `summary=<summary>` or an empty body |
| FlapjackDiner.CreateScheduledMaintenance | lib/flapjack-diner.rb:57-68 | succeeds exactly with entity, check, a `Time` start and an `Integer` duration; each failure names the first offending argument in the order entity, check, start time, duration; the body is `start_time=…&duration=…` then `&summary=…` if given |
| FlapjackDiner.ListReport | lib/flapjack-diner.rb:70-140 | fails with the missing entity before a non-`Time` filter; GETs `/<report>/<entity>[/<check>]` with no query at all when neither filter is given, else `?` and the given filters joined by `&` in order start, end |
| FlapjackDiner.MaintenanceBodyText | lib/flapjack-diner.rb:65 | the maintenance pairs on the wire: `start_time=`, `&duration=`, then `&summary=` only when a summary is given |
| FlapjackDiner.MaintenanceBodyDecodes | lib/flapjack-diner.rb:60-67 | when none of the escaped values sent contains `&`, the server reads the maintenance body back into exactly the posted parameters |
| FlapjackDiner.ReportQueryDecodes | lib/flapjack-diner.rb:115-119 | when neither escaped filter sent contains `&`, the report query reads back into exactly the given time filters |
| FlapjackDiner.Downcase | lib/flapjack-diner.rb:146 | the result has no upper-case letter and equals the input up to letter case |
| FlapjackDiner.ProtocolHostPort | lib/flapjack-diner.rb:144-151 | protocol is `http` without a scheme capture, else the capture lower-cased; host is the capture; port is 443 if and only if the protocol is `https`, and 80 otherwise |
| FlapjackDiner.SchemeCaseInsensitive | lib/flapjack-diner.rb:145-148 | schemes equal up to case give the same protocol, host and port |
| FlapjackDiner.Jsonify | lib/flapjack-diner.rb:169-172 | no result exactly when the response or its body is missing; otherwise the parser's result on the body, its error passed on unchanged |
| FlapjackDiner.Call | lib/flapjack-diner.rb:23-29 | a request that failed validation ends in that validation error and never reaches the transport; a transport failure is passed on unchanged; otherwise the result is what `jsonify` makes of the response, a parser error ending the call as `ParseFailed` with that error |
| FormQuery.Join | lib/flapjack-diner.rb:52 | the joined string is empty exactly when there are no pairs |
| FormQuery.Query | lib/flapjack-diner.rb:79-83 | the query is nil exactly when there are no pairs, and otherwise a non-empty join of them |
| FormQuery.QueryRoundTrip | lib/flapjack-diner.rb:52 | reading a joined string back gives the same pairs in order, for keys without `&` or `=` and values without `&` |
| FormQuery.JoinSplits | lib/flapjack-diner.rb:52 | splitting the joined string at `&` gives each pair's `k=v` in order |
| FormQuery.PairRoundTrip | lib/flapjack-diner.rb:52 | a `k=v` segment splits back into `k` and `v` when `k` has no `=` |
| Decimal.NatString | lib/flapjack-diner.rb:163 | the rendering of a natural number is one or more decimal digits with no leading zero; zero renders as the single digit `0` |
| Decimal.IntString | lib/flapjack-diner.rb:163 | `Integer#to_s` starts with `-` exactly for a negative number and is all digits otherwise |
| Decimal.NatStringValue | lib/flapjack-diner.rb:163 | the digits rendered for a natural number have that number as their value |
| Decimal.IntStringRoundTrip | lib/flapjack-diner.rb:163 | reading back the rendering of an integer gives the integer |
| Decimal.IntStringInjective | lib/flapjack-diner.rb:163 | distinct integers are rendered by `to_s` as distinct strings (before escaping) |

## Left out

- HTTParty's `get` and `post`, `include HTTParty` and `format :json`: network I/O in a library. `Call` takes the transport as a function. Transport errors are passed on, and nothing else about them is modelled.
- `JSON.parse`: a foreign parser. `Jsonify` takes it as a function.
- `URI.escape` and `Time#iso8601`: library functions, taken as the function fields of `Encoders`. Ruby's `URI.escape` leaves `&` and `=` unescaped, so `MaintenanceBodyDecodes` and `ReportQueryDecodes` assume that the escaped values actually sent contain no `&`. A summary containing `&` is read by the server as several parameters.
- `URI::HTTP.build` and its component checks: the build raises for a component outside its grammar (an escaped entity containing `?`, for one). This is not modelled. `RequestUri` is the path, then `?` and the query when there is one.
- The regular expression at lib/flapjack-diner.rb:145: its captures are the input `Captures`. The pattern has no capturing group for a port, so the port is always the default. As written it begins with `$`, which matches only before a line break or at the end of the string, and the next element of the pattern needs a letter or digit, which never follows there. So the pattern matches no base URI at all and both captures are always nil: `Captures` with a scheme or a host covers inputs the code never produces. Since neither the host nor the port reaches the request target, this changes nothing the client sends.
- The process-wide `base_uri` setting: the model takes the captured scheme and host as a parameter.
- FlapjackDiner.Downcase: lowers ASCII letters only; Ruby's `String#downcase` also folds other letters, which the `https?` capture never contains.
- Ruby argument values are modelled as `Str` (any object other than an `Integer` or a `Time`, given by its `to_s`), `Int` and `Time`. Subclasses of `Integer` or `Time` and `DateTime` values are not distinguished.
- FlapjackDiner.Prepare: its own contract only bounds the length; what it yields and which error it raises are stated by the `Prepare…` lemmas.
