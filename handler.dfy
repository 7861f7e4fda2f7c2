/**
 * The measurement ingestion Lambda (`main` in server/functions/measurements/src/handler.ts).
 *
 * A request passes an API-key gate, its body is parsed as JSON (an absent body
 * counts as "{}"), three measurement properties are picked out of the parsed
 * value, and one item stamped with the server clock is put into the DynamoDB
 * table. Anything thrown after the gate becomes a "soft failure": status 200
 * with `status: 'failed'` in the body.
 *
 * `JSON.parse` is the parameter `parse`, `Date.now()` is the parameter `now`,
 * `process.env.API_KEY` is the parameter `apiKey`, and the table is the class
 * `Store`, whose `outage` decides whether the next put is rejected.
 */
module MeasurementHandler {
  import opened Wrappers

  /** A value produced by `JSON.parse`. Numbers are kept as reals; no arithmetic is done on them. */
  datatype Json =
    | JNull
    | JBool(b: bool)
    | JNumber(n: real)
    | JString(s: string)
    | JArray(items: seq<Json>)
    | JObject(props: map<string, Json>)

  /** A value thrown inside the handler's `try` block: an `Error` instance carries a message. */
  datatype Thrown = ErrorObject(message: string) | NonError

  /** The parts of an API Gateway v2 event the handler reads; `body` is `undefined` when absent. */
  datatype Event = Event(headers: map<string, string>, body: Option<string>)

  /**
   * The item written to the table: `{ timestamp, temperature, humidity, pressure }`.
   * A measurement attribute is `None` when the parsed body had no such property (`undefined`).
   */
  datatype Item = Item(timestamp: int, temperature: Option<Json>, humidity: Option<Json>, pressure: Option<Json>)

  /** The JSON body of a response, before `JSON.stringify`. */
  datatype Body = ErrorBody(error: string) | StatusOk | StatusFailed(message: string)

  datatype Response = Response(statusCode: int, body: Body)

  /** What one invocation did: its response, the items it sent to the store, and those the store kept. */
  datatype Outcome = Outcome(response: Response, puts: seq<Item>, stored: seq<Item>)

  const ApiKeyHeader := "x-api-key"
  const DefaultBody := "{}"
  const MissingKeyMessage := "missing api key"
  const UnknownErrorMessage := "unknown error"
  /** The TypeError that destructuring `null` throws; the wording is the one current Node versions use. */
  const NullDestructureError := ErrorObject("Cannot destructure property 'temperature' of 'measurement' as it is null.")

  /** The key schema the CDK stack declares for the table. */
  const TablePartitionKey := "logger"
  const TableSortKey := "timestamp"

  /** `event.headers[name]`: `undefined` (None) when the header is absent. */
  function Header(event: Event, name: string): (r: Option<string>)
    ensures r.Some? <==> name in event.headers
    ensures r.Some? ==> r.value == event.headers[name]
  {
    if name in event.headers then Some(event.headers[name]) else None
  }

  /** The gate is strict equality (`!==`): `undefined` only matches `undefined`. */
  predicate Authorized(event: Event, apiKey: Option<string>)
    ensures ApiKeyHeader in event.headers ==>
              (Authorized(event, apiKey) <==> apiKey == Some(event.headers[ApiKeyHeader]))
    ensures ApiKeyHeader !in event.headers ==> (Authorized(event, apiKey) <==> apiKey.None?)
  {
    Header(event, ApiKeyHeader) == apiKey
  }

  /** Property access `v.key`: `undefined` (None) on anything but an object that has the key. */
  function Property(v: Json, key: string): (r: Option<Json>)
    ensures r.Some? <==> v.JObject? && key in v.props
    ensures r.Some? ==> r.value == v.props[key]
  {
    match v
    case JObject(props) => if key in props then Some(props[key]) else None
    case _ => None
  }

  /**
   * `const { temperature, humidity, pressure } = measurement` followed by the item literal.
   * Destructuring `null` throws; every other JSON value yields an item.
   */
  function Project(v: Json, now: int): (r: Result<Item, Thrown>)
    ensures r.Failure? <==> v == JNull
    ensures r.Failure? ==> r.error == NullDestructureError
    ensures r.Success? ==> r.value.timestamp == now
    ensures r.Success? ==> r.value.temperature == Property(v, "temperature")
    ensures r.Success? ==> r.value.humidity == Property(v, "humidity")
    ensures r.Success? ==> r.value.pressure == Property(v, "pressure")
  {
    if v == JNull then Failure(NullDestructureError)
    else Success(Item(now, Property(v, "temperature"), Property(v, "humidity"), Property(v, "pressure")))
  }

  /**
   * The attributes of the object literal `{ timestamp, temperature, humidity, pressure }`:
   * all four keys are present, an `undefined` measurement as None.
   */
  function Attributes(item: Item): (a: map<string, Option<Json>>)
    ensures a.Keys == {"timestamp", "temperature", "humidity", "pressure"}
    ensures a["timestamp"] == Some(JNumber(item.timestamp as real))
    ensures a["temperature"] == item.temperature
    ensures a["humidity"] == item.humidity
    ensures a["pressure"] == item.pressure
  {
    map["timestamp" := Some(JNumber(item.timestamp as real)), "temperature" := item.temperature,
        "humidity" := item.humidity, "pressure" := item.pressure]
  }

  /** `err instanceof Error ? err.message : 'unknown error'` */
  function FailureMessage(t: Thrown): (m: string)
    ensures t.ErrorObject? ==> m == t.message
    ensures t.NonError? ==> m == UnknownErrorMessage
  {
    match t
    case ErrorObject(message) => message
    case NonError => UnknownErrorMessage
  }

  function Forbidden(): Response {
    Response(403, ErrorBody(MissingKeyMessage))
  }

  function SoftFailure(t: Thrown): Response {
    Response(200, StatusFailed(FailureMessage(t)))
  }

  /**
   * The whole handler as a function of its inputs: the request, the configured key,
   * `JSON.parse`, the clock, and the store's answer to a put (`Some` = the put throws).
   */
  function Handle(event: Event, apiKey: Option<string>, parse: string -> Result<Json, Thrown>,
                  now: int, outage: Option<Thrown>): (o: Outcome)
    // the gate comes first and nothing reaches the store past a failed gate
    ensures !Authorized(event, apiKey) <==> o.response.statusCode == 403
    ensures !Authorized(event, apiKey) ==> o.response == Forbidden() && o.puts == []
    // 403 is the only status other than 200
    ensures o.response.statusCode == 200 || o.response.statusCode == 403
    // at most one put, and the store keeps it exactly when the body says ok
    ensures |o.puts| <= 1
    ensures o.stored == [] || o.stored == o.puts
    ensures o.response.body == StatusOk <==> |o.stored| == 1
    // every item is stamped with the server clock
    ensures forall item :: item in o.puts ==> item.timestamp == now
    // a soft failure carries the thrown value's message
    ensures o.response.body.StatusFailed? ==>
              o.response.statusCode == 200 && o.stored == [] &&
              exists t :: o.response == SoftFailure(t)
    ensures Authorized(event, apiKey) && parse(event.body.GetOr(DefaultBody)).Failure? ==>
              o == Outcome(SoftFailure(parse(event.body.GetOr(DefaultBody)).error), [], [])
    ensures outage.Some? && o.puts != [] ==> o.response == SoftFailure(outage.value)
    // the success path: a body that parses to anything but null puts its projection
    ensures Authorized(event, apiKey) && parse(event.body.GetOr(DefaultBody)).Success? &&
            parse(event.body.GetOr(DefaultBody)).value != JNull ==>
              && o.puts == [Project(parse(event.body.GetOr(DefaultBody)).value, now).value]
              && (outage.None? ==> o.response == Response(200, StatusOk) && o.stored == o.puts)
  {
    if !Authorized(event, apiKey) then
      Outcome(Forbidden(), [], [])
    else
      match parse(event.body.GetOr(DefaultBody))
      case Failure(t) => Outcome(SoftFailure(t), [], [])
      case Success(v) =>
        match Project(v, now)
        case Failure(t) => Outcome(SoftFailure(t), [], [])
        case Success(item) =>
          match outage
          case Some(t) => Outcome(SoftFailure(t), [item], [])
          case None => Outcome(Response(200, StatusOk), [item], [item])
  }

  /** The DynamoDB table: the items it holds, the puts it has received, and whether puts fail. */
  class Store {
    var items: seq<Item>
    var putCalls: nat
    var outage: Option<Thrown>

    constructor (items: seq<Item>, outage: Option<Thrown>)
      ensures this.items == items && putCalls == 0 && this.outage == outage
    {
      this.items := items;
      putCalls := 0;
      this.outage := outage;
    }

    /** `dynamo.send(new PutCommand({ Item }))`: appends the item, or throws `outage`. */
    method Put(item: Item) returns (fault: Option<Thrown>)
      modifies this`items, this`putCalls
      ensures fault == outage
      ensures putCalls == old(putCalls) + 1
      ensures items == if fault.None? then old(items) + [item] else old(items)
    {
      putCalls := putCalls + 1;
      fault := outage;
      if fault.None? {
        items := items + [item];
      }
    }
  }

  /** `main`: the handler run against a store, step by step. */
  method HandleRequest(event: Event, apiKey: Option<string>, parse: string -> Result<Json, Thrown>,
                       now: int, store: Store) returns (response: Response)
    modifies store`items, store`putCalls
    ensures response == Handle(event, apiKey, parse, now, old(store.outage)).response
    ensures store.items == old(store.items) + Handle(event, apiKey, parse, now, old(store.outage)).stored
    ensures store.putCalls == old(store.putCalls) + |Handle(event, apiKey, parse, now, old(store.outage)).puts|
  {
    var key := Header(event, ApiKeyHeader);
    if key != apiKey {
      return Forbidden();
    }
    var measurement := parse(event.body.GetOr(DefaultBody));
    if measurement.Failure? {
      return SoftFailure(measurement.error);
    }
    var item := Project(measurement.value, now);
    if item.Failure? {
      return SoftFailure(item.error);
    }
    var fault := store.Put(item.value);
    if fault.Some? {
      return SoftFailure(fault.value);
    }
    return Response(200, StatusOk);
  }

  /** Only `temperature`, `humidity` and `pressure` of the body reach the store. */
  lemma BodyMattersOnlyThroughMeasurementFields(e1: Event, e2: Event, apiKey: Option<string>,
                                                parse: string -> Result<Json, Thrown>, now: int,
                                                outage: Option<Thrown>)
    requires Authorized(e1, apiKey) && Authorized(e2, apiKey)
    requires parse(e1.body.GetOr(DefaultBody)).Success? && parse(e2.body.GetOr(DefaultBody)).Success?
    requires var v1, v2 := parse(e1.body.GetOr(DefaultBody)).value, parse(e2.body.GetOr(DefaultBody)).value;
             v1 != JNull && v2 != JNull &&
             Property(v1, "temperature") == Property(v2, "temperature") &&
             Property(v1, "humidity") == Property(v2, "humidity") &&
             Property(v1, "pressure") == Property(v2, "pressure")
    ensures Handle(e1, apiKey, parse, now, outage) == Handle(e2, apiKey, parse, now, outage)
  {
  }

  /** A `timestamp` in the body never reaches the item: the stored one is the clock. */
  lemma ClientTimestampIgnored(event: Event, apiKey: Option<string>, parse: string -> Result<Json, Thrown>,
                               now: int, clientTime: Json)
    requires Authorized(event, apiKey)
    requires parse(event.body.GetOr(DefaultBody)).Success?
    requires var v := parse(event.body.GetOr(DefaultBody)).value;
             v.JObject? && Property(v, "timestamp") == Some(clientTime)
    ensures Handle(event, apiKey, parse, now, None).stored ==
              [Item(now, Property(parse(event.body.GetOr(DefaultBody)).value, "temperature"),
                         Property(parse(event.body.GetOr(DefaultBody)).value, "humidity"),
                         Property(parse(event.body.GetOr(DefaultBody)).value, "pressure"))]
  {
  }

  /**
   * An absent body is parsed as "{}": given that `JSON.parse("{}")` is the empty object,
   * the request is not rejected and every measurement attribute of the item is undefined.
   */
  lemma AbsentBodyStoresUndefinedFields(event: Event, apiKey: Option<string>,
                                        parse: string -> Result<Json, Thrown>, now: int)
    requires Authorized(event, apiKey) && event.body.None?
    requires parse(DefaultBody) == Success(JObject(map[]))
    ensures Handle(event, apiKey, parse, now, None) ==
              Outcome(Response(200, StatusOk), [Item(now, None, None, None)], [Item(now, None, None, None)])
  {
  }

  /** A body that parses to `null` fails softly with the destructuring TypeError and no put. */
  lemma NullBodyFailsSoftly(event: Event, apiKey: Option<string>, parse: string -> Result<Json, Thrown>,
                            now: int, outage: Option<Thrown>)
    requires Authorized(event, apiKey)
    requires parse(event.body.GetOr(DefaultBody)) == Success(JNull)
    ensures Handle(event, apiKey, parse, now, outage) ==
              Outcome(Response(200, StatusFailed(NullDestructureError.message)), [], [])
  {
  }

  /**
   * The payload the device sends (`temperature`, `humidity`, `pressure`, `logger`):
   * the item keeps the three readings and drops `logger`.
   */
  lemma ClientLoggerDropped(event: Event, apiKey: Option<string>, parse: string -> Result<Json, Thrown>,
                            now: int, t: Json, h: Json, p: Json, logger: string)
    requires Authorized(event, apiKey)
    requires parse(event.body.GetOr(DefaultBody)) ==
             Success(JObject(map["temperature" := t, "humidity" := h, "pressure" := p, "logger" := JString(logger)]))
    ensures Handle(event, apiKey, parse, now, None).stored == [Item(now, Some(t), Some(h), Some(p))]
  {
  }

  /** Every item the handler puts has the table's sort key but not its partition key `logger`. */
  lemma ItemKeysAgainstTableSchema(event: Event, apiKey: Option<string>, parse: string -> Result<Json, Thrown>,
                                   now: int, outage: Option<Thrown>, item: Item)
    requires item in Handle(event, apiKey, parse, now, outage).puts
    ensures TableSortKey in Attributes(item).Keys
    ensures TablePartitionKey !in Attributes(item).Keys
  {
  }

  /** With no key configured, a request without the header passes the gate (`undefined === undefined`). */
  lemma UnsetKeyAdmitsMissingHeader(event: Event)
    requires ApiKeyHeader !in event.headers
    ensures Authorized(event, None)
  {
  }
}
