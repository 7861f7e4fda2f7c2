# temperature-logger core, modelled in Dafny

The temperature logger is a sensor board (a FeatherS2 Neo running CircuitPython) that posts
temperature, humidity and pressure readings to an AWS Lambda behind an HTTP API, which writes
them to a DynamoDB table. This project models the two parts of the repository that have
logic of their own:

- `handler.dfy`, module `MeasurementHandler`: the ingestion Lambda `main`. It checks the
  `x-api-key` header against the configured key (403 `{error: 'missing api key'}` on a
  mismatch, before anything else), parses the body with `'{}'` standing in for an absent
  body, projects the parsed value onto the item `{timestamp, temperature, humidity,
  pressure}` with `timestamp` taken from the server clock, puts that one item, and turns
  anything thrown into a soft failure: status 200 with `{status: 'failed', message}`.
  `Handle` is the handler as a function of its inputs; `HandleRequest` runs the same steps
  against a `Store` object and is proved equal to it, including how many puts reach the store.
  `JSON.parse` is a function parameter, `Date.now()` an integer parameter, `process.env.API_KEY`
  an optional string parameter, and the table is the class `Store`, whose `outage` field says
  whether a put throws.
- `feathers2neo.dfy`, module `Feathers2Neo`: `rgb_color_wheel` and the `matrix_animation`
  class. The class keeps its fields (`error`, `trailLength`, `animTrail`, `currentAnim`,
  `matrix`); `IncAnimIndex` and `Animate` update them in place and are proved against the
  value-level functions `Advanced` (every trail entry stepped once, wrapping at the shape
  length) and `Painted` (the pixels the trail draws, in order). The lemmas show that only the
  trail's pixels change, that they all lie on the 25-pixel matrix, and that the trail is
  always the head's position minus the entry's index, modulo the shape length.
- `wrappers.dfy`, module `Wrappers`: `Option` and `Result`.

The CDK stack also routes `GET /measurements`, `GET /measurements/{loggerId}`,
`GET /battery/{loggerId}` and `GET /temperature/{loggerId}` to this same handler
(server/lib/temperature-measurements-stack.ts:56-78), but `main` only ingests: it does not
look at the method or the path, and every request is treated as a new measurement. The
handler answers 200 `{status: 'ok'}` on success. It stores no device identifier, `charge`
or `logger` field, and it sends no alerts.

Three mismatches between the handler, the CDK stack and the device are stated as lemmas. The item has no `logger` attribute, although the CDK stack declares `logger` as the
table's partition key (`ItemKeysAgainstTableSchema`). The device sends a `logger` field that
the handler drops (`ClientLoggerDropped`). The gate compares with `!==`, so when no key is
configured, a request without the header passes it (`UnsetKeyAdmitsMissingHeader`). The stack
always configures a string there, possibly the empty one.

## Model

| member | source | states |
|---|---|---|
| `MeasurementHandler.Header` | server/functions/measurements/src/handler.ts:11 | a header lookup gives the header's value when present, and `undefined` otherwise |
| `MeasurementHandler.Authorized` | server/functions/measurements/src/handler.ts:11-12 | with the header present, the gate passes exactly when the configured key is that value; without it, exactly when no key is configured |
| `MeasurementHandler.Property` | server/functions/measurements/src/handler.ts:20 | destructuring gives a value only for an object that has the key, and `undefined` for every other JSON value |
| `MeasurementHandler.Project` | server/functions/measurements/src/handler.ts:20-24 | fails exactly on `null`, with the destructuring TypeError; otherwise the item carries the clock as `timestamp` and the body's three measurement properties |
| `MeasurementHandler.Attributes` | server/functions/measurements/src/handler.ts:24 | the written item has exactly the keys `timestamp`, `temperature`, `humidity` and `pressure`, holding the clock and the three measurements |
| `MeasurementHandler.FailureMessage` | server/functions/measurements/src/handler.ts:38 | an `Error`'s message, and `'unknown error'` for any other thrown value |
| `MeasurementHandler.Handle` | server/functions/measurements/src/handler.ts:8-45 | 403 exactly when the key differs, then with `{error: 'missing api key'}` and no put; 200 otherwise; at most one put; `ok` exactly when one item was stored; every put item has `timestamp == now`; an authorized body that parses to anything but `null` puts exactly its projection, and gets 200 `ok` when the store accepts it; a parse error or a failed put gives 200 `failed` with the thrown value's message |
| `MeasurementHandler.Store.constructor` | server/lib/temperature-measurements-stack.ts:18-30 | a table starts with the given items and no puts received |
| `MeasurementHandler.Store.Put` | server/functions/measurements/src/handler.ts:21-26 | one put call is counted; the item is appended unless the store throws, in which case nothing is stored |
| `MeasurementHandler.HandleRequest` | server/functions/measurements/src/handler.ts:8-45 | the response equals `Handle`'s; the store gains exactly `Handle`'s stored items and receives exactly its puts (none past a failed gate) |
| `MeasurementHandler.BodyMattersOnlyThroughMeasurementFields` | server/functions/measurements/src/handler.ts:20-24 | two authorized bodies that parse to non-null values agreeing on `temperature`, `humidity` and `pressure` give the same outcome, whatever else they hold |
| `MeasurementHandler.ClientTimestampIgnored` | server/functions/measurements/src/handler.ts:24 | a `timestamp` in the body does not reach the store; the stored item has the server clock |
| `MeasurementHandler.AbsentBodyStoresUndefinedFields` | server/functions/measurements/src/handler.ts:19-20 | an absent body is parsed as `'{}'`: the request is accepted and the item's three measurement attributes are undefined |
| `MeasurementHandler.NullBodyFailsSoftly` | server/functions/measurements/src/handler.ts:18-43 | a body that parses to `null` yields 200 `failed` with the TypeError's message and no put |
| `MeasurementHandler.ClientLoggerDropped` | client/code.py:53-58 | the device's payload is stored as its three readings with the clock; its `logger` field is dropped |
| `MeasurementHandler.ItemKeysAgainstTableSchema` | server/lib/temperature-measurements-stack.ts:22-29 | every item the handler puts has the table's sort key `timestamp` among its attributes but not its partition key `logger` |
| `MeasurementHandler.UnsetKeyAdmitsMissingHeader` | server/functions/measurements/src/handler.ts:11-12 | with no key configured, a request without the header passes the strict-equality gate |
| `Feathers2Neo.ColorWheel` | client/feathers2neo.py:169-180 | each channel is in [0, 255], the channels sum to 255, and green, red or blue is 0 below 85, from 85 to 169, and from 170 on |
| `Feathers2Neo.ColorWheelPeriodic` | client/feathers2neo.py:171 | the colour depends only on the position modulo 255 |
| `Feathers2Neo.ColorWheelSmooth` | client/feathers2neo.py:169-180 | consecutive positions, wrap-around included, differ by at most 3 in each channel |
| `Feathers2Neo.ColorWheelInjective` | client/feathers2neo.py:173-180 | the 255 positions of one turn give 255 distinct colours |
| `Feathers2Neo.Shapes` | client/feathers2neo.py:35-95 | the table has exactly the shapes square, circle, diamond, plus, cross and spiral, of 16, 12, 8, 10, 10 and 52 entries |
| `Feathers2Neo.ShapesFitMatrix` | client/feathers2neo.py:35-95 | every shape is non-empty and its entries lie in [-1, 24] |
| `Feathers2Neo.InitialTrail` | client/feathers2neo.py:117 | the initial trail has the stored length and entry `i` is `-i` |
| `Feathers2Neo.Step` | client/feathers2neo.py:126-128 | an entry either advances by one or becomes 0, and it becomes 0 exactly when it reaches the shape length (or was -1); it stays below the shape length |
| `Feathers2Neo.Advanced` | client/feathers2neo.py:136-143 | every entry is stepped exactly once and the length is kept |
| `Feathers2Neo.AdvancedInRange` | client/feathers2neo.py:125-128 | stepping keeps every entry in [-(trail_length - 1), len(current_anim) - 1] |
| `Feathers2Neo.TrailFollowsHead` | client/feathers2neo.py:111-143 | the initial trail is step 0 of the closed form, and one `animate` moves step `k` to step `k + 1`: entry `i` is `(k - i) mod n` once shown |
| `Feathers2Neo.TrailShownPrefix` | client/feathers2neo.py:137 | at step `k` exactly the entries `0..k` are shown |
| `Feathers2Neo.Painted` | client/feathers2neo.py:133-143 | the matrix after `animate`'s drawing pass, taking shown entries in order and dimming after each; it keeps the matrix size |
| `Feathers2Neo.Fade` | client/feathers2neo.py:141 | the brightness never goes negative, drops by at most one fifth, drops whenever it is positive, and is 0 from one fifth down |
| `Feathers2Neo.PaintedFrame` | client/feathers2neo.py:137-140 | a pixel that no shown entry targets through a shape entry other than -1 is unchanged; each targeted pixel gets the animation colour |
| `Feathers2Neo.TargetsOnMatrix` | client/feathers2neo.py:136-140 | every pixel written for a table shape is in [0, 24] |
| `Feathers2Neo.MatrixAnimation.constructor` | client/feathers2neo.py:30-120 | `error` exactly for an unknown shape or a trail length outside [1, 20]; otherwise the stored length is the argument + 1, the trail is `[0, -1, ...]` of that length, and the shape is the table's |
| `Feathers2Neo.MatrixAnimation.IncAnimIndex` | client/feathers2neo.py:125-128 | only entry `index` changes: it is incremented and reset to 0 at the shape length; the bounds invariant is kept |
| `Feathers2Neo.MatrixAnimation.GetAnimIndex` | client/feathers2neo.py:130-131 | the shape entry at the trail position, with negative positions counted from the end and IndexError below `-len`; any result is in [-1, 24] |
| `Feathers2Neo.MatrixAnimation.Animate` | client/feathers2neo.py:133-143 | an errored instance changes nothing; otherwise the trail is `Advanced` and the matrix is `Painted` from the old trail, the colour and brightness `trail_length - 1` fifths |

## Left out

- DynamoDB client construction and the `PutCommand` wire format: the table is the `Store` class, and whether a put throws is its `outage` field. How the document client marshals `undefined` attributes is not part of this model. A put that throws is covered whatever the cause.
- `JSON.parse` and `Date.now()`: external calls, taken as the parameters `parse` and `now`. `AbsentBodyStoresUndefinedFields` assumes `JSON.parse('{}')` gives the empty object.
- `console.error` logging and `JSON.stringify` of response bodies: bodies are kept as the structured `Body` datatype.
- Header-name normalisation by API Gateway: the header map is looked up under `x-api-key` as given.
- The CDK stack, the CDK app entry point and the HTTP method enum: infrastructure and declarations with no runtime logic.
- client/code.py: Wi-Fi, sensor reads, HTTP POST and the sleep loop are I/O. Only its payload shape is used, in `ClientLoggerDropped`.
- Pin setup, `set_pixel_matrix_power`, `get_vbus_present` and `get_battery_voltage` in client/feathers2neo.py: hardware access and float rounding.
- `get_alpha` and the float `alpha`: brightness is kept exactly in fifths (`alpha = 0.2 * fifths`). Float rounding can leave a tiny positive `alpha` one step longer than exact arithmetic would, and that is not modelled. The written colour `(r * alpha, g * alpha, b * alpha)` is kept as `Shade(Rgb(r, g, b), fifths)`.
- `rgb_color_wheel` on a float position: only integer positions are modelled. Python's `%` and Dafny's `%` agree for the positive divisor 255.
- The `print` messages of `__init__` for an unknown shape or a bad trail length: console output. The model keeps only the `error` flag they accompany.
- MeasurementHandler.Project: the text of the TypeError thrown on a `null` body is the one current Node versions give for destructuring. Other runtimes or compile targets word it differently, for example as a property read of `null`. Only the fact that an `Error` is thrown, and that its message becomes the reply, is independent of that.
- Feathers2Neo.MatrixAnimation.constructor: requires a 25-pixel matrix, the board's 5x5 NeoPixel matrix. The Python code does not check this and would raise IndexError on writing to a smaller one. On an errored instance, the fields the Python constructor never sets hold placeholders that no method reads.
- Feathers2Neo.MatrixAnimation.IncAnimIndex: requires a constructed instance and an index inside the trail. The Python code raises AttributeError or IndexError otherwise, or counts a negative index from the end. `animate` only calls it with indices in `range(trail_length)`.
- Feathers2Neo.MatrixAnimation.GetAnimIndex: has the same preconditions as `IncAnimIndex`, for the same reason.
