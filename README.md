# IoT weather-station dashboard: telemetry windows and connection-string translation

This project models, in Dafny, the two parts of the weather-station visualisation app that hold logic of their own.

- **The dashboard's telemetry state** (`frontend/js/visualization-data.js`).
  - Each device (`DeviceData`) keeps a rolling window of three parallel columns: times, temperatures and humidities.
  - The tracked-device list (`TrackedDevices`) is append-only and is searched by id.
  - The socket message handler drops incomplete readings, finds or adds the device, files the reading, and auto-selects the first device ever seen.
  - These are imperative in the source, so they are Dafny classes (`Telemetry.DeviceData`, `Telemetry.TrackedDevices`, `Telemetry.Dashboard`) whose methods update `seq` fields.
  - Their postconditions are tied to the pure window function `Slide`, through the per-device step `Advance`. Lemmas relate `Slide` to `Recent` (the last `cap` entries of a history) and `Replay` (a run of additions), and so prove FIFO eviction.
- **IoT Hub to Event Hubs connection-string translation** (`azure-iot-hub-connector.js`). Every step is a pure function:
  - field validation, the hub name and the derived strings (resource URI, username, management address);
  - the SAS token layout;
  - the decision taken on the receiver error that the service returns;
  - the entity-path regular expression `/5671\/(.*)\/\$management/i`, modelled with JavaScript's matching rules: leftmost start, greedy capture, `.` refusing line terminators, and `i` case folding. The model folds ASCII letters only. This is exact for this pattern: without the `u` flag JavaScript never folds a non-ASCII character onto an ASCII letter, and `$management` is all ASCII. The redirect is the AMQP 1.0 link error condition `amqp:link:redirect` (OASIS AMQP 1.0, Part 2, section 2.8.18);
  - the Event Hubs connection string.

The network is a parameter. `Translate` takes the service as a function from the planned connection to the error that the receiver link reports. `encodeURIComponent` and HMAC-SHA256 with base64 are passed in as a `Primitives` value. The token expiry is passed in as a whole number of seconds.

Modules: `JsValues` (Option, Result, JavaScript values and truthiness), `Decimal` (how `${n}` prints an integer), `Telemetry`, `EntityPathPattern`, `IotHubConnector`.

Where the code and its documentation differ, the model follows the code:
- The JSDoc of `convertIotHubToEventHubsConnectionString` gives the output as `Endpoint=sb://<hostname>;...`. The code writes `Endpoint=sb://<hostname>/;...`.
- The window is said to hold at most 50 readings. The code pre-sizes each column with 50 holes, so every column holds exactly 50 entries from the start. The holes read as `undefined`.
- A redirect error without `info`, or whose `info` has no `address`, does not reject. Line 73 reads `error.info.address` before the host-name check, so the listener throws and the promise never settles. The model returns `ListenerThrew` for this case.

## Model

| member | source | states |
|---|---|---|
| `Telemetry.DeviceData.constructor` | frontend/js/visualization-data.js:7-13 | A new device window has exactly 50 entries per column, all holes (undefined). It is well formed and carries the given id. |
| `Telemetry.DeviceData.AddData` | frontend/js/visualization-data.js:15-25 | The window stays at exactly 50 entries per column. Each column drops its oldest entry and appends the new one at the end. Temperature is stored as given; a falsy humidity is stored as null. |
| `JsValues.Or` | frontend/js/visualization-data.js:18 | `a \|\| b` is truthy exactly when either operand is. It yields the left operand whenever that is truthy and the right operand whenever the left is falsy. |
| `Telemetry.Slide` | frontend/js/visualization-data.js:15-24 | One `push` then, past 50 entries, one `shift`. Its properties are stated by `SlideFull` (a full window drops its oldest entry and appends the new one) and `ReplayIsRecent` (a run of slides keeps the last 50 entries in order). |
| `Telemetry.SlideFull` | frontend/js/visualization-data.js:16-23 | On a full window, push-then-shift equals dropping the first element and appending the new one. The length is unchanged and the new entry is last. |
| `Telemetry.SlideRecent` | frontend/js/visualization-data.js:16-23 | Sliding the most recent `cap` entries of a history gives the most recent `cap` entries of the extended history. |
| `Telemetry.ReplayIsRecent` | frontend/js/visualization-data.js:15-24 | FIFO: after any run of additions, a window that started no larger than its capacity holds the last `cap` entries of (start ++ additions), in order. |
| `Telemetry.Holes` | frontend/js/visualization-data.js:10-12 | `new Array(50)`: exactly 50 entries, all holes read as undefined. `DeviceWindowAfter` states what a column built from it holds after any run of additions. |
| `Telemetry.Advance` | frontend/js/visualization-data.js:15-24 | The effect of `addData` on the three columns: each column slides, temperature stored as given, a falsy humidity stored as null. `Telemetry.DeviceData.AddData` is proved to perform it in place, and `FiledEntryCarriesReading` states what the newest entry then holds. |
| `Telemetry.DeviceWindowAfter` | frontend/js/visualization-data.js:9-24 | From the pre-sized start, a column always has 50 entries. After 50 or more additions it is exactly the latest 50 values, and its last entry is the latest value. |
| `Telemetry.Recorded` | frontend/js/visualization-data.js:146 | The guard: a truthy date, an `IotData` record and a truthy temperature or humidity. `Telemetry.Dashboard.OnMessage` states that a message failing it changes nothing, and `FiledEntryCarriesReading` what filing a message that passes it leaves. |
| `Telemetry.FiledEntryCarriesReading` | frontend/js/visualization-data.js:146-160 | Filing a message that passes the guard leaves a window with 50 entries. The newest entry has the message date and a truthy temperature or humidity. Its humidity is null or truthy. |
| `Telemetry.TrackedDevices.constructor` | frontend/js/visualization-data.js:30-32 | The device list starts empty and well formed. |
| `Telemetry.TrackedDevices.FindDevice` | frontend/js/visualization-data.js:34-42 | Returns null (undefined) exactly when no device has the id. Otherwise it returns the device at the first index whose id matches. |
| `Telemetry.TrackedDevices.DevicesCount` | frontend/js/visualization-data.js:44-46 | The count is the list length. When ids are distinct, it equals the number of different ids seen. |
| `Telemetry.DistinctCardinality` | frontend/js/visualization-data.js:151-160 | A list of ids without repeats, as find-or-add keeps it, has as many entries as different ids. |
| `Telemetry.Dashboard.constructor` | frontend/js/visualization-data.js:49 | The page starts with no tracked devices, auto-select pending and nothing shown. |
| `Telemetry.Dashboard.SelectionChanged` | frontend/js/visualization-data.js:131-137 | Selecting entry `index` of the drop-down makes the chart show the device at that index. Distinct ids make `findDevice` return exactly that device. |
| `Telemetry.Dashboard.OnMessage` | frontend/js/visualization-data.js:140-180 | No date, no reading, or no `IotData`: devices, windows, flag and selection are unchanged. A known id: only that device's window advances and the list is unchanged. An unknown id: one fresh device is appended with its first reading. Ids stay distinct. The auto-select flag goes from true to false on the first new device, never becomes true again, and the first device gets shown. |
| `Telemetry.Dashboard.AddDevice` | frontend/js/visualization-data.js:155-174 | An unknown id gets one fresh device at the end of the list, filed with its first reading. Earlier devices keep their order and ids stay distinct. The auto-select flag ends false. The new device is shown exactly when it is the first device ever seen. |
| `Decimal.Format` | azure-iot-hub-connector.js:16 | The expiry is printed as a non-empty string of decimal digits with no leading zero. |
| `Decimal.ParseFormat` | azure-iot-hub-connector.js:16 | Reading the printed expiry back gives the same number. |
| `IotHubConnector.HubName` | azure-iot-hub-connector.js:37 | `split(".")[0]` is a prefix of the host name without a dot. It is either the whole host name or is followed by a dot. |
| `IotHubConnector.HubNameOfHost` | azure-iot-hub-connector.js:37-41 | For a host `<name>.<domain>` with a dot-free name, the hub name is `<name>`. |
| `IotHubConnector.SplitAtFirst` | azure-iot-hub-connector.js:16 | A field ends at the first separator. This is what lets the token's and the connection string's fields be read back. |
| `IotHubConnector.StringToSign` | azure-iot-hub-connector.js:9 | The signed text: the encoded resource URI, a newline and the printed expiry. `SasTokenLayout` states that it splits back into the URI and the expiry. |
| `IotHubConnector.SasToken` | azure-iot-hub-connector.js:5-17 | `generateSasToken` with the expiry given. Its layout is stated by `SasTokenLayout` and read back by `ParseSasTokenLayout`. |
| `IotHubConnector.ParseSasTokenLayout` | azure-iot-hub-connector.js:16 | The token `SharedAccessSignature sr=..&sig=..&se=..&skn=..` reads back into the same four fields, provided the encoded URI and signature contain no `&`. |
| `IotHubConnector.SasTokenLayout` | azure-iot-hub-connector.js:5-17 | With a URI encoder that escapes `&` and newline, the token's `sr` is the encoded resource URI and `sig` is the encoded signature of `sr + "\n" + se`. The expiry and policy name come back unchanged. The signed text splits back into `sr` and `se`. |
| `IotHubConnector.UsableFields` | azure-iot-hub-connector.js:32-41 | All three fields present and non-empty, and a host name whose first `.`-separated part is non-empty. `PlanConnection` is proved to succeed exactly on these fields. |
| `IotHubConnector.ResourceUri` | azure-iot-hub-connector.js:45 | The resource URI `<host>/messages/events` that the token signs. `PlanConnection` states the token over it. |
| `IotHubConnector.Username` | azure-iot-hub-connector.js:55 | The username `<keyName>@sas.root.<hub>`. `PlanConnection` states it as the connection's username. |
| `IotHubConnector.ManagementAddress` | azure-iot-hub-connector.js:65 | The link source `amqps://<host>/messages/events/$management`. `PlanConnection` states it as the plan's source. |
| `IotHubConnector.PlanConnection` | azure-iot-hub-connector.js:28-66 | Fails with the invalid-connection-string message exactly when a field is missing or empty. Fails with the hub-name message exactly when the host starts with `.`. Succeeds exactly when all three fields are present and the host does not start with `.`; the plan then holds: TLS, port 5671, no reconnect, host name as host, username `<keyName>@sas.root.<hub>`, the SAS token over `<host>/messages/events` as password, and link source `amqps://<host>/messages/events/$management`. |
| `EntityPathPattern.LongestCapture` | azure-iot-hub-connector.js:73 | Greedy `(.*)`: the largest end where the rest of the pattern matches and no line terminator was crossed, or none. |
| `EntityPathPattern.FirstMatch` | azure-iot-hub-connector.js:73 | The regex search gives the leftmost start that admits a match, with the greedy end for it. It gives nothing exactly when no match exists. |
| `EntityPathPattern.EntityPath` | azure-iot-hub-connector.js:73 | `match(...)` is null exactly when no span matches. Otherwise group 1 is the capture of the leftmost, greedy match. |
| `EntityPathPattern.EntityPathIsLeftmostGreedy` | azure-iot-hub-connector.js:73 | The leftmost greedy match is unique and alone decides the entity path. |
| `EntityPathPattern.EntityPathOfRedirectAddress` | azure-iot-hub-connector.js:73-83 | For `<prefix>5671/<path>/$management` (marker in any letter case, no port in the prefix, no line terminator in the path) the entity path is exactly `<path>`. This includes the empty path. |
| `EntityPathPattern.EntityPathExample` | azure-iot-hub-connector.js:73 | `amqps://eh.example.com:5671/myhub/$management` gives `myhub`. |
| `EntityPathPattern.NoPortNoEntityPath` | azure-iot-hub-connector.js:73-80 | An address without `5671/` does not match. |
| `IotHubConnector.ParseFailureMessage` | azure-iot-hub-connector.js:78-79 | The parse-failure message begins with the fixed text followed by the raw address. |
| `IotHubConnector.IsRedirect` | azure-iot-hub-connector.js:71 | An AMQP error with condition `amqp:link:redirect`. `HandleReceiverError` states that anything else is rejected unchanged. |
| `IotHubConnector.HandleReceiverError` | azure-iot-hub-connector.js:69-87 | Anything but an AMQP `amqp:link:redirect` is rejected unchanged. A redirect without `info.address` throws in the listener. A redirect without a host name is rejected unchanged, whatever its address. An unmatched address rejects with the parse-failure message. It resolves exactly on a redirect with a host name and a matching address, to `Endpoint=sb://<host>/;EntityPath=<path>;SharedAccessKeyName=<name>;SharedAccessKey=<key>`. |
| `IotHubConnector.EventHubConnectionString` | azure-iot-hub-connector.js:83 | The success string. `EventHubConnectionStringRoundTrip` reads it back into its four fields and `EventHubConnectionStringEndsWithKeys` places the keys at its end. |
| `IotHubConnector.EventHubConnectionStringRoundTrip` | azure-iot-hub-connector.js:83 | The result string reads back into host name, entity path, key name and key, provided none of the first three contains `;`. |
| `IotHubConnector.EventHubConnectionStringEndsWithKeys` | azure-iot-hub-connector.js:83 | Every Event Hubs connection string the translator builds ends with `;SharedAccessKeyName=<name>;SharedAccessKey=<key>` of the keys it was given. |
| `IotHubConnector.Translate` | azure-iot-hub-connector.js:27-92 | A missing or empty field rejects with the invalid-connection-string error, and a leading-dot host with the hub-name error, whatever the service would answer. With usable fields, the result is exactly what the receiver-error listener makes of the service's answer to the planned connection: a non-redirect is rejected unchanged; a redirect without `info.address` throws in the listener and never settles; a redirect without a host name is rejected unchanged; an address the pattern does not match rejects with the parse-failure message, which carries the address; and the result resolves exactly on a redirect with a host name and a matching address, to the Event Hubs connection string for that host and entity path with the original keys. A resolved result ends with the input's key name and key, unchanged. |
| `IotHubConnector.TranslateRedirect` | azure-iot-hub-connector.js:68-84 | Any redirect naming a host and an address `<prefix>5671/<path>/$management` (no port in the prefix, no line terminator in the path, marker in any letter case) resolves to the Event Hubs connection string for that host and path, with the original keys. |
| `IotHubConnector.TranslateRedirectExample` | azure-iot-hub-connector.js:68-84 | A redirect to `myhub` on `eh.example.com` resolves to that hub's Event Hubs connection string with the original keys. |

## Left out

- `azure-event-hub-reader.js` is not part of this model. It is subscription plumbing over the Event Hubs SDK.
- `parseConnectionString` from `rhea-promise`: its source is not available. Its result is the record `ConnectionStringFields` of three optional strings.
- HMAC-SHA256, base64 (`Crypto.createHmac`, `Buffer.from`) and `encodeURIComponent` are foreign library calls. They are the function parameters in `Primitives`. The only property assumed of the encoder, and only where a lemma needs it, is that it escapes `&` and newline.
- The expiry `Math.ceil(Date.now() / 1000 + 5 * 60)` depends on the clock and on floating point. It is the parameter `expiry`, a whole number of seconds.
- The AMQP connection lifecycle is network I/O and asynchronous callbacks. This covers `Connection.open`, `createReceiver`, the event subscription, promise settlement, and the best-effort `connection.close()`. The service's answer is a parameter of `Translate`.
- `IotHubConnector.ParseFailureMessage`: `error.stack` and `JSON.stringify(error.info)` are opaque strings given as parameters.
- `IotHubConnector.ReceiverError.NotAmqp`: a non-AMQP error is carried as an opaque description, not as the JavaScript object itself.
- The browser side is UI and I/O. Out of scope: the WebSocket, `JSON.parse`, console logging, DOM updates (the device-count text, option elements) and Chart.js configuration and redraws. A message is an already-parsed `Message` record, and the chart's device is the field `shown`.
- `Telemetry.Dashboard.SelectionChanged`: the drop-down is not modelled. The selected option's text is taken to be the id of the device at the same index, because the handler appends a device and its option together. This holds only for ids that HTML's `option.text` returns unchanged: `option.text` strips and collapses ASCII whitespace, so an id such as `" dev"` is not found again. In the source, the lookup at line 132 then yields undefined and line 133 throws. For the first device, line 170 has already cleared the auto-select flag, and the catch at lines 177-178 swallows the error, so nothing is shown. The model shows the device in that case.
- The chart takes the device's arrays by reference and sees later in-place updates. This aliasing is not modelled: the columns are `seq` values, and `shown` records which device the chart displays.
- `Telemetry.Message`: device ids are strings. Numbers are reals, with NaN as a separate value. Other object-valued fields are not modelled.
