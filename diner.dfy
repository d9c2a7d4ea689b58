/** The client for the monitoring service's HTTP API: parameter preparation,
    the request each endpoint issues, the scheme and port defaulting for the
    configured base URL, and the handling of the response. The network, the
    JSON parser, `URI.escape` and `Time#iso8601` are parameters. */
module FlapjackDiner {
  import opened Wrappers
  import opened Decimal
  import opened FormQuery

  // ---------------------------------------------------------------------
  // Values and declared parameters

  /** A Ruby `Time`: whole seconds since the epoch, the fraction of a second in
      nanoseconds and the UTC offset in seconds. The model only ever renders it
      through `iso8601`. */
  datatype Timestamp = Timestamp(epochSeconds: int, nanoseconds: nat, utcOffsetSeconds: int)

  /** A non-nil argument value: an `Integer`, a `Time`, or any other object,
      given by what its `to_s` returns. */
  datatype Value = Str(s: string) | Int(n: int) | Time(t: Timestamp)

  /** The classes a parameter may be constrained to. */
  datatype RubyClass = TimeClass | IntegerClass

  function ClassName(k: RubyClass): string {
    match k
    case TimeClass => "Time"
    case IntegerClass => "Integer"
  }

  /** `value.is_a?(klass)` */
  predicate IsA(v: Value, k: RubyClass) {
    match k
    case TimeClass => v.Time?
    case IntegerClass => v.Int?
  }

  /** One entry `name => {:value, :required, :class}` of the hash given to `prepare`. */
  datatype Param = Param(name: string, value: Option<Value>, required: bool, klass: Option<RubyClass>)

  /** The two exceptions `prepare` raises. */
  datatype PrepareError = Missing(key: string) | WrongClass(key: string, expected: RubyClass)

  /** The exception's message. */
  function Message(e: PrepareError): (m: string)
    ensures |m| > |e.key| + 1 && m[0] == '\'' && m[1..|e.key| + 1] == e.key && m[|e.key| + 1] == '\''
  {
    match e
    case Missing(k) => "'" + k + "' is required"
    case WrongClass(k, c) => "'" + k + "' must be a " + ClassName(c)
  }

  /** The library functions `prepare` calls: `URI.escape` and `Time#iso8601`. */
  datatype Encoders = Encoders(escape: string -> string, iso8601: Timestamp -> string)

  /** The string form of a value: `iso8601` for a `Time`, `to_s` otherwise. */
  function Rendered(enc: Encoders, v: Value): string {
    match v
    case Time(t) => enc.iso8601(t)
    case Int(n) => IntString(n)
    case Str(s) => s
  }

  /** What `prepare` sends for a present value. */
  function Encoded(enc: Encoders, v: Value): string {
    enc.escape(Rendered(enc, v))
  }

  function EncodedOpt(enc: Encoders, v: Option<Value>): Option<string> {
    match v
    case Some(x) => Some(Encoded(enc, x))
    case None => None
  }

  /** The exception, if any, that `prepare` raises on reaching `p`. */
  function Offence(p: Param): Option<PrepareError> {
    match p.value
    case None => if p.required then Some(Missing(p.name)) else None
    case Some(v) =>
      if p.klass.Some? && !IsA(v, p.klass.value) then Some(WrongClass(p.name, p.klass.value)) else None
  }

  /** The parameters whose value is present, in declaration order. */
  function Present(ps: seq<Param>): (qs: seq<Param>)
    ensures forall i :: 0 <= i < |qs| ==> qs[i].value.Some?
    ensures forall p :: p in qs <==> p in ps && p.value.Some?
  {
    if |ps| == 0 then []
    else if ps[0].value.Some? then [ps[0]] + Present(ps[1..])
    else
      assert forall p :: p in ps <==> p == ps[0] || p in ps[1..];
      Present(ps[1..])
  }

  /** The name and encoded value of each of `qs`, in order. */
  function EncodeAll(enc: Encoders, qs: seq<Param>): (pairs: seq<Pair>)
    requires forall i :: 0 <= i < |qs| ==> qs[i].value.Some?
  {
    seq(|qs|, i requires 0 <= i < |qs| => (qs[i].name, Encoded(enc, qs[i].value.value)))
  }

  /** What `prepare` keeps for `p` once `p` does not offend. */
  function Sent(enc: Encoders, p: Param): (kept: seq<Pair>)
    ensures kept == [] <==> p.value.None?
  {
    if p.value.Some? then [(p.name, Encoded(enc, p.value.value))] else []
  }

  /** `prepare`: the hash is visited in declaration order and the first
      offending parameter raises; otherwise the present values are encoded
      and the absent ones dropped. */
  function Prepare(enc: Encoders, ps: seq<Param>): (r: Result<seq<Pair>, PrepareError>)
    ensures r.Success? ==> |r.value| <= |ps|
  {
    if |ps| == 0 then Success([])
    else if Offence(ps[0]).Some? then Failure(Offence(ps[0]).value)
    else
      match Prepare(enc, ps[1..])
      case Failure(e) => Failure(e)
      case Success(rest) => Success(Sent(enc, ps[0]) + rest)
  }

  /** `prepare` succeeds exactly when no parameter offends. */
  lemma {:induction false} PrepareSucceedsIff(enc: Encoders, ps: seq<Param>)
    ensures Prepare(enc, ps).Success? <==> forall i :: 0 <= i < |ps| ==> Offence(ps[i]).None?
    decreases |ps|
  {
    if |ps| > 0 {
      PrepareSucceedsIff(enc, ps[1..]);
      assert forall i :: 0 < i < |ps| ==> ps[i] == ps[1..][i - 1];
    }
  }

  /** A failing `prepare` reports the first offending parameter in declaration order. */
  lemma {:induction false} PrepareReportsFirstOffence(enc: Encoders, ps: seq<Param>)
    requires Prepare(enc, ps).Failure?
    ensures exists i :: 0 <= i < |ps| && Offence(ps[i]) == Some(Prepare(enc, ps).error) &&
                        forall j :: 0 <= j < i ==> Offence(ps[j]).None?
    decreases |ps|
  {
    if Offence(ps[0]).None? {
      PrepareReportsFirstOffence(enc, ps[1..]);
      var k :| 0 <= k < |ps[1..]| && Offence(ps[1..][k]) == Some(Prepare(enc, ps[1..]).error) &&
        forall j :: 0 <= j < k ==> Offence(ps[1..][j]).None?;
      assert Offence(ps[k + 1]) == Some(Prepare(enc, ps).error);
      forall j | 0 <= j < k + 1
        ensures Offence(ps[j]).None?
      {
        if j > 0 {
          assert ps[j] == ps[1..][j - 1];
        }
      }
    }
  }

  /** A successful `prepare` yields the present parameters, in order, each
      with its encoded value. */
  lemma {:induction false} PrepareEncodesPresent(enc: Encoders, ps: seq<Param>)
    requires Prepare(enc, ps).Success?
    ensures Prepare(enc, ps).value == EncodeAll(enc, Present(ps))
    decreases |ps|
  {
    if |ps| > 0 {
      PrepareEncodesPresent(enc, ps[1..]);
    }
  }

  /** One step of `prepare`: the head is checked before the rest. */
  lemma PrepareCons(enc: Encoders, p: Param, rest: seq<Param>)
    ensures Prepare(enc, [p] + rest) ==
      if Offence(p).Some? then Failure(Offence(p).value)
      else if Prepare(enc, rest).Failure? then Failure(Prepare(enc, rest).error)
      else Success(Sent(enc, p) + Prepare(enc, rest).value)
  {
    assert ([p] + rest)[0] == p;
    assert ([p] + rest)[1..] == rest;
  }

  /** `prepare` on the entity and check arguments of an endpoint. */
  lemma PrepareArgs(enc: Encoders, entity: Option<Value>, check: Option<Value>, checkRequired: bool)
    ensures Prepare(enc, [EntityParam(entity), Param("check", check, checkRequired, None)]) ==
      if entity.None? then Failure(Missing("entity"))
      else if check.None? && checkRequired then Failure(Missing("check"))
      else Success([("entity", Encoded(enc, entity.value))] + EncodedCheck(enc, check))
  {
    var a, b := EntityParam(entity), Param("check", check, checkRequired, None);
    assert [a, b] == [a] + [b];
    assert [b] == [b] + [];
    PrepareCons(enc, a, [b]);
    PrepareCons(enc, b, []);
    assert Prepare(enc, []) == Success([]);
    assert Sent(enc, b) == EncodedCheck(enc, check);
    if entity.Some? {
      assert Offence(a).None?;
      assert Sent(enc, a) == [("entity", Encoded(enc, entity.value))];
      if Offence(b).None? {
        assert Prepare(enc, [b]) == Success(Sent(enc, b) + []);
        assert Sent(enc, b) + [] == EncodedCheck(enc, check);
      } else {
        assert Prepare(enc, [b]) == Failure(Missing("check"));
      }
    }
  }

  /** Looking up the prepared entity and check arguments. */
  lemma LookupArgs(enc: Encoders, entity: Value, check: Option<Value>)
    ensures Lookup([("entity", Encoded(enc, entity))] + EncodedCheck(enc, check), "entity") == Some(Encoded(enc, entity))
    ensures Lookup([("entity", Encoded(enc, entity))] + EncodedCheck(enc, check), "check") == EncodedOpt(enc, check)
  {
    var args := [("entity", Encoded(enc, entity))] + EncodedCheck(enc, check);
    assert args[1..] == EncodedCheck(enc, check);
    assert "entity" != "check";
  }

  /** `path += "/#{args[:check]}" if args[:check]` */
  function AppendCheck(path: string, args: seq<Pair>): string {
    match Lookup(args, "check")
    case Some(c) => path + "/" + c
    case None => path
  }

  lemma AppendCheckOf(enc: Encoders, path: string, entity: Value, check: Option<Value>)
    ensures AppendCheck(path, [("entity", Encoded(enc, entity))] + EncodedCheck(enc, check)) ==
      path + (if check.Some? then "/" + Encoded(enc, check.value) else "")
  {
    LookupArgs(enc, entity, check);
    if check.Some? {
      assert path + "/" + Encoded(enc, check.value) == path + ("/" + Encoded(enc, check.value));
    }
  }

  function EncodedCheck(enc: Encoders, check: Option<Value>): seq<Pair> {
    if check.Some? then [("check", Encoded(enc, check.value))] else []
  }

  predicate DistinctNames(ps: seq<Param>) {
    forall i, j :: 0 <= i < j < |ps| ==> ps[i].name != ps[j].name
  }

  /** On success, every present parameter is sent as its encoded value, and
      everything sent comes from a present parameter. */
  lemma PrepareOutput(enc: Encoders, ps: seq<Param>)
    requires Prepare(enc, ps).Success?
    ensures forall i :: 0 <= i < |ps| && ps[i].value.Some? ==>
      (ps[i].name, Encoded(enc, ps[i].value.value)) in Prepare(enc, ps).value
    ensures forall pair :: pair in Prepare(enc, ps).value ==>
      exists i :: 0 <= i < |ps| && ps[i].value.Some? && pair == (ps[i].name, Encoded(enc, ps[i].value.value))
  {
    PrepareEncodesPresent(enc, ps);
    var qs := Present(ps);
    var out := Prepare(enc, ps).value;
    forall i | 0 <= i < |ps| && ps[i].value.Some?
      ensures (ps[i].name, Encoded(enc, ps[i].value.value)) in out
    {
      assert ps[i] in qs;
      var k :| 0 <= k < |qs| && qs[k] == ps[i];
      assert out[k] == (ps[i].name, Encoded(enc, ps[i].value.value));
    }
    forall pair | pair in out
      ensures exists i :: 0 <= i < |ps| && ps[i].value.Some? && pair == (ps[i].name, Encoded(enc, ps[i].value.value))
    {
      var k :| 0 <= k < |out| && out[k] == pair;
      assert qs[k] in ps;
    }
  }

  /** An absent parameter is never sent. */
  lemma PrepareDropsAbsent(enc: Encoders, ps: seq<Param>, i: nat)
    requires DistinctNames(ps) && i < |ps| && ps[i].value.None?
    requires Prepare(enc, ps).Success?
    ensures forall pair :: pair in Prepare(enc, ps).value ==> pair.0 != ps[i].name
  {
    PrepareOutput(enc, ps);
  }

  /** A required parameter without a value makes `prepare` raise, and it is
      the one reported when nothing before it offends. */
  lemma PrepareMissingRequired(enc: Encoders, ps: seq<Param>, i: nat)
    requires i < |ps| && ps[i].required && ps[i].value.None?
    ensures Prepare(enc, ps).Failure?
    ensures (forall j :: 0 <= j < i ==> Offence(ps[j]).None?) ==>
      Prepare(enc, ps) == Failure(Missing(ps[i].name))
  {
    assert Offence(ps[i]).Some?;
    FirstOffenceReported(enc, ps, i);
  }

  /** A present value that is not an instance of its declared class makes
      `prepare` raise, and it is the one reported when nothing before it offends. */
  lemma PrepareWrongClass(enc: Encoders, ps: seq<Param>, i: nat)
    requires i < |ps| && ps[i].value.Some? && ps[i].klass.Some?
    requires !IsA(ps[i].value.value, ps[i].klass.value)
    ensures Prepare(enc, ps).Failure?
    ensures (forall j :: 0 <= j < i ==> Offence(ps[j]).None?) ==>
      Prepare(enc, ps) == Failure(WrongClass(ps[i].name, ps[i].klass.value))
  {
    assert Offence(ps[i]).Some?;
    FirstOffenceReported(enc, ps, i);
  }

  lemma FirstOffenceReported(enc: Encoders, ps: seq<Param>, i: nat)
    requires i < |ps| && Offence(ps[i]).Some?
    ensures Prepare(enc, ps).Failure?
    ensures (forall j :: 0 <= j < i ==> Offence(ps[j]).None?) ==>
      Prepare(enc, ps) == Failure(Offence(ps[i]).value)
  {
    PrepareSucceedsIff(enc, ps);
    var r := Prepare(enc, ps);
    if forall j :: 0 <= j < i ==> Offence(ps[j]).None? {
      PrepareReportsFirstOffence(enc, ps);
      var k :| 0 <= k < |ps| && Offence(ps[k]) == Some(r.error) &&
        forall j :: 0 <= j < k ==> Offence(ps[j]).None?;
      if k < i {
      } else if i < k {
      }
    }
  }

  /** `args[key]` on the prepared hash. */
  function Lookup(pairs: seq<Pair>, key: string): Option<string> {
    if |pairs| == 0 then None
    else if pairs[0].0 == key then Some(pairs[0].1)
    else Lookup(pairs[1..], key)
  }

  // ---------------------------------------------------------------------
  // Base URL: protocol, host and port

  /** What the base-URL pattern captured: the scheme and the host. The
      pattern has no group for a port. */
  datatype Captures = Captures(scheme: Option<string>, host: Option<string>)

  function LowerChar(c: char): char {
    if 'A' <= c <= 'Z' then (c as int + 32) as char else c
  }

  predicate IsLower(s: string) {
    forall i :: 0 <= i < |s| ==> !('A' <= s[i] <= 'Z')
  }

  predicate SameIgnoringCase(a: string, b: string) {
    |a| == |b| && forall i :: 0 <= i < |a| ==> LowerChar(a[i]) == LowerChar(b[i])
  }

  /** `String#downcase` on ASCII letters. */
  function Downcase(s: string): (d: string)
    ensures IsLower(d) && SameIgnoringCase(d, s)
  {
    seq(|s|, i requires 0 <= i < |s| => LowerChar(s[i]))
  }

  /** `protocol_host_port`: the protocol is the captured scheme lower-cased,
      `http` by default; the port is 443 for `https` and 80 otherwise. */
  function ProtocolHostPort(caps: Captures): (r: (string, Option<string>, int))
    ensures caps.scheme.None? ==> r.0 == "http"
    ensures caps.scheme.Some? ==> IsLower(r.0) && SameIgnoringCase(r.0, caps.scheme.value)
    ensures r.1 == caps.host
    ensures r.2 == 443 || r.2 == 80
    ensures r.2 == 443 <==> r.0 == "https"
  {
    var protocol := Downcase(caps.scheme.GetOr("http"));
    assert caps.scheme.None? ==> protocol == "http";
    var port := if protocol == "https" then 443 else 80;
    (protocol, caps.host, port)
  }

  /** The result depends on the scheme only up to letter case. */
  lemma SchemeCaseInsensitive(a: string, b: string, host: Option<string>)
    requires SameIgnoringCase(a, b)
    ensures ProtocolHostPort(Captures(Some(a), host)) == ProtocolHostPort(Captures(Some(b), host))
  {
    assert Downcase(a) == Downcase(b);
  }

  /** `URI::HTTP.build(...)` */
  datatype Uri = Uri(protocol: string, host: Option<string>, port: int, path: string, query: Option<string>)

  /** `request_uri`: the path, then `?` and the query when there is one. */
  function RequestUri(u: Uri): string {
    match u.query
    case None => u.path
    case Some(q) => u.path + "?" + q
  }

  lemma RequestUriWithQuery(u: Uri, pairs: seq<Pair>)
    requires u.query == Query(pairs)
    ensures RequestUri(u) == u.path + (if pairs == [] then "" else "?" + Join(pairs))
  {
    if pairs != [] {
      assert u.path + "?" + Join(pairs) == u.path + ("?" + Join(pairs));
    }
  }

  // ---------------------------------------------------------------------
  // Endpoints

  /** What an endpoint hands to HTTParty: `get(target)` or `post(path, :body => body)`. */
  datatype Request = Get(target: string) | Post(path: string, body: string)

  /** `entities` */
  function Entities(): (r: Request)
    ensures r == Get("/entities")
  {
    Get("/entities")
  }

  function EntityParam(entity: Option<Value>): Param {
    Param("entity", entity, true, None)
  }

  /** `checks(entity)` */
  function Checks(enc: Encoders, base: Captures, entity: Option<Value>): (r: Result<Request, PrepareError>)
    ensures r.Success? <==> entity.Some?
    ensures entity.None? ==> r == Failure(Missing("entity"))
    ensures entity.Some? ==> r == Success(Get("/checks/" + Encoded(enc, entity.value)))
  {
    assert [EntityParam(entity)] == [EntityParam(entity)] + [];
    PrepareCons(enc, EntityParam(entity), []);
    var args :- Prepare(enc, [EntityParam(entity)]);
    var hp := ProtocolHostPort(base);
    var uri := Uri(hp.0, hp.1, hp.2, "/checks/" + Lookup(args, "entity").GetOr(""), None);
    Success(Get(RequestUri(uri)))
  }

  /** `status(entity, check = nil)` */
  function Status(enc: Encoders, base: Captures, entity: Option<Value>, check: Option<Value>): (r: Result<Request, PrepareError>)
    ensures r.Success? <==> entity.Some?
    ensures entity.None? ==> r == Failure(Missing("entity"))
    ensures entity.Some? && check.None? ==>
      r == Success(Get("/status/" + Encoded(enc, entity.value)))
    ensures entity.Some? && check.Some? ==>
      r == Success(Get("/status/" + Encoded(enc, entity.value) + "/" + Encoded(enc, check.value)))
  {
    PrepareArgs(enc, entity, check, false);
    var args :- Prepare(enc, [EntityParam(entity), Param("check", check, false, None)]);
    LookupArgs(enc, entity.value, check);
    var path := AppendCheck("/status/" + Lookup(args, "entity").GetOr(""), args);
    AppendCheckOf(enc, "/status/" + Encoded(enc, entity.value), entity.value, check);
    var hp := ProtocolHostPort(base);
    Success(Get(RequestUri(Uri(hp.0, hp.1, hp.2, path, None))))
  }

  /** `acknowledge!(entity, check, :summary => summary)` */
  function Acknowledge(enc: Encoders, entity: Option<Value>, check: Option<Value>, summary: Option<Value>): (r: Result<Request, PrepareError>)
    ensures r.Success? <==> entity.Some? && check.Some?
    ensures entity.None? ==> r == Failure(Missing("entity"))
    ensures entity.Some? && check.None? ==> r == Failure(Missing("check"))
    ensures r.Success? ==> r.value == Post(
      "/acknowledgments/" + Encoded(enc, entity.value) + "/" + Encoded(enc, check.value),
      if summary.Some? then "summary=" + Encoded(enc, summary.value) else "")
  {
    PrepareArgs(enc, entity, check, true);
    var args :- Prepare(enc, [EntityParam(entity), Param("check", check, true, None)]);
    LookupArgs(enc, entity.value, check);
    var sp := Param("summary", summary, false, None);
    assert [sp] == [sp] + [];
    PrepareCons(enc, sp, []);
    var query := Prepare(enc, [sp]).value;
    var path := "/acknowledgments/" + Lookup(args, "entity").GetOr("") + "/" + Lookup(args, "check").GetOr("");
    assert query == Sent(enc, sp) + [];
    assert path == "/acknowledgments/" + Encoded(enc, entity.value) + "/" + Encoded(enc, check.value);
    assert Join(query) == if summary.Some? then "summary=" + Encoded(enc, summary.value) else "";
    Success(Post(path, Join(query)))
  }

  predicate IsTime(v: Option<Value>) {
    v.Some? && IsA(v.value, TimeClass)
  }

  predicate IsInt(v: Option<Value>) {
    v.Some? && IsA(v.value, IntegerClass)
  }

  /** The parameters `create_scheduled_maintenance!` posts. */
  function MaintenanceParams(startTime: Option<Value>, duration: Option<Value>, summary: Option<Value>): seq<Param> {
    [Param("start_time", startTime, true, Some(TimeClass)),
     Param("duration", duration, true, Some(IntegerClass)),
     Param("summary", summary, false, None)]
  }

  /** The encoded maintenance parameters, in declaration order. */
  function MaintenancePairs(enc: Encoders, start: Timestamp, duration: int, summary: Option<Value>): seq<Pair> {
    [("start_time", enc.escape(enc.iso8601(start))), ("duration", enc.escape(IntString(duration)))] +
    (if summary.Some? then [("summary", Encoded(enc, summary.value))] else [])
  }

  /** The maintenance body on the wire. */
  lemma MaintenanceBodyText(enc: Encoders, start: Timestamp, duration: int, summary: Option<Value>)
    ensures Join(MaintenancePairs(enc, start, duration, summary)) ==
      "start_time=" + enc.escape(enc.iso8601(start)) +
      "&duration=" + enc.escape(IntString(duration)) +
      (if summary.Some? then "&summary=" + Encoded(enc, summary.value) else "")
  {
    var x, y := ("start_time", enc.escape(enc.iso8601(start))), ("duration", enc.escape(IntString(duration)));
    var optional := if summary.Some? then [("summary", Encoded(enc, summary.value))] else [];
    JoinTwoThen(x, y, optional);
    assert PairText(x) == "start_time=" + enc.escape(enc.iso8601(start));
    assert PairText(y) == "duration=" + enc.escape(IntString(duration));
    assert Join(optional) == if summary.Some? then "summary=" + Encoded(enc, summary.value) else "";
  }

  /** `prepare` on the maintenance parameters: start time, then duration, then summary. */
  lemma PrepareMaintenance(enc: Encoders, startTime: Option<Value>, duration: Option<Value>, summary: Option<Value>)
    ensures Prepare(enc, MaintenanceParams(startTime, duration, summary)) ==
      if startTime.None? then Failure(Missing("start_time"))
      else if !IsTime(startTime) then Failure(WrongClass("start_time", TimeClass))
      else if duration.None? then Failure(Missing("duration"))
      else if !IsInt(duration) then Failure(WrongClass("duration", IntegerClass))
      else Success(MaintenancePairs(enc, startTime.value.t, duration.value.n, summary))
  {
    var ps := MaintenanceParams(startTime, duration, summary);
    var a, b, c := ps[0], ps[1], ps[2];
    assert [c] == [c] + [];
    assert [b, c] == [b] + [c];
    assert ps == [a] + [b, c];
    PrepareCons(enc, c, []);
    PrepareCons(enc, b, [c]);
    PrepareCons(enc, a, [b, c]);
    assert Prepare(enc, []) == Success([]);
    assert Prepare(enc, [c]) == Success(Sent(enc, c) + []);
    assert Sent(enc, c) + [] == Sent(enc, c);
    if IsTime(startTime) && IsInt(duration) {
      assert Prepare(enc, [b, c]) == Success(Sent(enc, b) + Sent(enc, c));
      assert Sent(enc, a) == [("start_time", enc.escape(enc.iso8601(startTime.value.t)))];
      assert Sent(enc, b) == [("duration", enc.escape(IntString(duration.value.n)))];
      assert Sent(enc, a) + (Sent(enc, b) + Sent(enc, c)) ==
        [("start_time", enc.escape(enc.iso8601(startTime.value.t))),
         ("duration", enc.escape(IntString(duration.value.n)))] + Sent(enc, c);
    }
  }

  /** `create_scheduled_maintenance!(entity, check, start_time, duration, :summary => summary)` */
  function CreateScheduledMaintenance(enc: Encoders, entity: Option<Value>, check: Option<Value>,
                                      startTime: Option<Value>, duration: Option<Value>, summary: Option<Value>): (r: Result<Request, PrepareError>)
    ensures r.Success? <==> entity.Some? && check.Some? && IsTime(startTime) && IsInt(duration)
    ensures entity.None? ==> r == Failure(Missing("entity"))
    ensures entity.Some? && check.None? ==> r == Failure(Missing("check"))
    ensures entity.Some? && check.Some? && startTime.None? ==> r == Failure(Missing("start_time"))
    ensures entity.Some? && check.Some? && startTime.Some? && !IsTime(startTime) ==>
      r == Failure(WrongClass("start_time", TimeClass))
    ensures entity.Some? && check.Some? && IsTime(startTime) && duration.None? ==> r == Failure(Missing("duration"))
    ensures entity.Some? && check.Some? && IsTime(startTime) && duration.Some? && !IsInt(duration) ==>
      r == Failure(WrongClass("duration", IntegerClass))
    ensures r.Success? ==> r.value == Post(
      "/scheduled_maintenances/" + Encoded(enc, entity.value) + "/" + Encoded(enc, check.value),
      "start_time=" + enc.escape(enc.iso8601(startTime.value.t)) +
      "&duration=" + enc.escape(IntString(duration.value.n)) +
      (if summary.Some? then "&summary=" + Encoded(enc, summary.value) else ""))
  {
    PrepareArgs(enc, entity, check, true);
    var args :- Prepare(enc, [EntityParam(entity), Param("check", check, true, None)]);
    LookupArgs(enc, entity.value, check);
    PrepareMaintenance(enc, startTime, duration, summary);
    var query :- Prepare(enc, MaintenanceParams(startTime, duration, summary));
    MaintenanceBodyText(enc, startTime.value.t, duration.value.n, summary);
    var path := "/scheduled_maintenances/" + Lookup(args, "entity").GetOr("") + "/" + Lookup(args, "check").GetOr("");
    Success(Post(path, Join(query)))
  }

  /** The four reports listed per entity, optionally per check, between optional times. */
  datatype Report = ScheduledMaintenances | UnscheduledMaintenances | Outages | Downtime

  function ReportPrefix(report: Report): string {
    match report
    case ScheduledMaintenances => "/scheduled_maintenances/"
    case UnscheduledMaintenances => "/unscheduled_maintenances/"
    case Outages => "/outages/"
    case Downtime => "/downtime/"
  }

  predicate TimeOrAbsent(v: Option<Value>) {
    v.None? || IsA(v.value, TimeClass)
  }

  /** The time filters that are present, in declaration order, encoded. */
  function TimeFilters(enc: Encoders, startTime: Option<Value>, endTime: Option<Value>): seq<Pair> {
    (if startTime.Some? then [("start_time", Encoded(enc, startTime.value))] else []) +
    (if endTime.Some? then [("end_time", Encoded(enc, endTime.value))] else [])
  }

  function TimeFilterParams(startTime: Option<Value>, endTime: Option<Value>): seq<Param> {
    [Param("start_time", startTime, false, Some(TimeClass)),
     Param("end_time", endTime, false, Some(TimeClass))]
  }

  /** `prepare` on the optional time filters: start time before end time. */
  lemma PrepareTimeFilters(enc: Encoders, startTime: Option<Value>, endTime: Option<Value>)
    ensures Prepare(enc, TimeFilterParams(startTime, endTime)) ==
      if !TimeOrAbsent(startTime) then Failure(WrongClass("start_time", TimeClass))
      else if !TimeOrAbsent(endTime) then Failure(WrongClass("end_time", TimeClass))
      else Success(TimeFilters(enc, startTime, endTime))
  {
    var ps := TimeFilterParams(startTime, endTime);
    var a, b := ps[0], ps[1];
    assert [b] == [b] + [];
    assert ps == [a] + [b];
    PrepareCons(enc, b, []);
    PrepareCons(enc, a, [b]);
    assert Prepare(enc, []) == Success([]);
    if TimeOrAbsent(endTime) {
      assert Prepare(enc, [b]) == Success(Sent(enc, b) + []);
      assert Sent(enc, b) + [] == Sent(enc, b);
      assert Sent(enc, a) + Sent(enc, b) == TimeFilters(enc, startTime, endTime);
    }
  }

  /** `scheduled_maintenances`, `unscheduled_maintenances`, `outages` and
      `downtime`, each `(entity, check = nil, :start_time => s, :end_time => e)`. */
  function ListReport(enc: Encoders, base: Captures, report: Report, entity: Option<Value>, check: Option<Value>,
                      startTime: Option<Value>, endTime: Option<Value>): (r: Result<Request, PrepareError>)
    ensures r.Success? <==> entity.Some? && TimeOrAbsent(startTime) && TimeOrAbsent(endTime)
    ensures entity.None? ==> r == Failure(Missing("entity"))
    ensures entity.Some? && !TimeOrAbsent(startTime) ==> r == Failure(WrongClass("start_time", TimeClass))
    ensures entity.Some? && TimeOrAbsent(startTime) && !TimeOrAbsent(endTime) ==>
      r == Failure(WrongClass("end_time", TimeClass))
    ensures r.Success? ==> r.value == Get(
      ReportPrefix(report) + Encoded(enc, entity.value) +
      (if check.Some? then "/" + Encoded(enc, check.value) else "") +
      (if startTime.None? && endTime.None? then "" else "?" + Join(TimeFilters(enc, startTime, endTime))))
  {
    PrepareArgs(enc, entity, check, false);
    var args :- Prepare(enc, [EntityParam(entity), Param("check", check, false, None)]);
    LookupArgs(enc, entity.value, check);
    PrepareTimeFilters(enc, startTime, endTime);
    var query :- Prepare(enc, TimeFilterParams(startTime, endTime));
    var path := AppendCheck(ReportPrefix(report) + Lookup(args, "entity").GetOr(""), args);
    AppendCheckOf(enc, ReportPrefix(report) + Encoded(enc, entity.value), entity.value, check);
    var hp := ProtocolHostPort(base);
    var uri := Uri(hp.0, hp.1, hp.2, path, Query(query));
    RequestUriWithQuery(uri, query);
    Success(Get(RequestUri(uri)))
  }

  // ---------------------------------------------------------------------
  // Reading the wire format back

  /** The server reads the maintenance body back into exactly the posted
      parameters, provided no escaped value sent contains an `&`. */
  lemma MaintenanceBodyDecodes(enc: Encoders, entity: Option<Value>, check: Option<Value>,
                               startTime: Option<Value>, duration: Option<Value>, summary: Option<Value>)
    requires startTime.Some? && startTime.value.Time? ==> '&' !in enc.escape(enc.iso8601(startTime.value.t))
    requires duration.Some? && duration.value.Int? ==> '&' !in enc.escape(IntString(duration.value.n))
    requires summary.Some? ==> '&' !in Encoded(enc, summary.value)
    requires CreateScheduledMaintenance(enc, entity, check, startTime, duration, summary).Success?
    ensures ParseQuery(CreateScheduledMaintenance(enc, entity, check, startTime, duration, summary).value.body) ==
      [("start_time", enc.escape(enc.iso8601(startTime.value.t))), ("duration", enc.escape(IntString(duration.value.n)))] +
      (if summary.Some? then [("summary", Encoded(enc, summary.value))] else [])
  {
    var pairs := MaintenancePairs(enc, startTime.value.t, duration.value.n, summary);
    assert forall i :: 0 <= i < |pairs| ==> Plain(pairs[i]);
    QueryRoundTrip(pairs);
    MaintenanceBodyText(enc, startTime.value.t, duration.value.n, summary);
  }

  /** The query of a report request reads back into the time filters given,
      provided neither escaped filter contains an `&`. */
  lemma ReportQueryDecodes(enc: Encoders, startTime: Option<Value>, endTime: Option<Value>)
    requires startTime.Some? ==> '&' !in Encoded(enc, startTime.value)
    requires endTime.Some? ==> '&' !in Encoded(enc, endTime.value)
    ensures ParseQuery(Join(TimeFilters(enc, startTime, endTime))) == TimeFilters(enc, startTime, endTime)
  {
    var pairs := TimeFilters(enc, startTime, endTime);
    assert forall i :: 0 <= i < |pairs| ==> Plain(pairs[i]);
    QueryRoundTrip(pairs);
  }

  // ---------------------------------------------------------------------
  // Issuing the request and reading the response

  /** An HTTParty response: its body may be missing. */
  datatype Response = Response(body: Option<string>)

  /** `jsonify`: nothing for a missing response or body, otherwise what the
      parser makes of the body (its error passed on unchanged). */
  function Jsonify<J>(response: Option<Response>, parse: string -> Result<J, string>): (r: Result<Option<J>, string>)
    ensures r == Success(None) <==> response.None? || response.value.body.None?
    ensures response.Some? && response.value.body.Some? ==>
      (r.Failure? <==> parse(response.value.body.value).Failure?)
    ensures response.Some? && response.value.body.Some? && r.Failure? ==>
      r.error == parse(response.value.body.value).error
    ensures response.Some? && response.value.body.Some? && parse(response.value.body.value).Success? ==>
      r == Success(Some(parse(response.value.body.value).value))
  {
    match response
    case None => Success(None)
    case Some(resp) =>
      match resp.body
      case None => Success(None)
      case Some(b) =>
        match parse(b)
        case Success(j) => Success(Some(j))
        case Failure(e) => Failure(e)
  }

  /** How a call ends when it does not return a value. */
  datatype CallError = Invalid(cause: PrepareError) | TransportFailed(reason: string) | ParseFailed(reason: string)

  /** `jsonify(get(...))` / `jsonify(post(...))` after the endpoint's checks:
      the transport is reached only with a request that passed validation. */
  function Call<J>(request: Result<Request, PrepareError>, transport: Request -> Result<Option<Response>, string>,
                   parse: string -> Result<J, string>): (r: Result<Option<J>, CallError>)
    ensures request.Failure? ==> r == Failure(Invalid(request.error))
    ensures request.Success? && r.Failure? ==> !r.error.Invalid?
    ensures request.Success? && transport(request.value).Failure? ==>
      r == Failure(TransportFailed(transport(request.value).error))
    ensures (request.Success? && transport(request.value).Success? &&
             Jsonify(transport(request.value).value, parse).Success?) ==>
      r == Success(Jsonify(transport(request.value).value, parse).value)
    ensures (request.Success? && transport(request.value).Success? &&
             Jsonify(transport(request.value).value, parse).Failure?) ==>
      r == Failure(ParseFailed(Jsonify(transport(request.value).value, parse).error))
  {
    match request
    case Failure(e) => Failure(Invalid(e))
    case Success(req) =>
      match transport(req)
      case Failure(e) => Failure(TransportFailed(e))
      case Success(resp) =>
        match Jsonify(resp, parse)
        case Success(j) => Success(j)
        case Failure(e) => Failure(ParseFailed(e))
  }
}
