# ESP32 telemetry and OTA firmware, modelled in Dafny

The firmware joins an enterprise WiFi network at start-up. It then runs a
cooperative scheduler tick (`loop()`). Each tick re-joins WiFi when the link
is down and polls the local OTA listener. Once every 60000 ms of `millis()`
it does two things:

- it POSTs one random JSON telemetry record to each configured endpoint, in
  index order;
- it GETs the published firmware version, trims it and compares it with the
  version the device believes it runs.

The hardware and the network are replaced by oracle inputs:

- `millis()` is a `U32` reading;
- each `WiFi.status()` answer is a boolean, and the retry loop gets them as a
  function of the call index;
- HTTP replies are a status code and a body;
- `random()` is an arbitrary draw mapped into Arduino's half-open range;
- `getLocalTime()` is an optional time string.

What the firmware does is recorded as a trace of `Effect`s on a `World`
object, plus a `restarted` flag for `ESP.restart()`.

Modules:

- `Clock`: the unsigned 32-bit elapsed-time test of the scheduler.
- `Telemetry`: `DataSender` (src/DataSender.cpp). It covers the timestamp
  sentinel, the record generator, the JSON serialiser with a parser proved to
  invert it, and `send()`.
- `Connectivity`: `WiFiManager`, with the bounded retry loop of `connect()`
  and `reconnectIfNeeded()`.
- `Ota`: `OTAHandler` and the two globals it rewrites (`FirmwareVer`,
  `payload`). It covers `String::trim()`, the version check, `handleUpdate()`
  and `firmwareUpdate()`.
- `App`: `ESP32App`, with its constructor, `setup()` and `loop()`.
- `Board` and `Wrappers`: the effect trace, the `World` class and `Option`.

Three behaviours of the code are worth stating plainly, because a reader of
the firmware might expect otherwise; the model keeps them as written:

- The version check does not test WiFi connectivity first.
- The sends are plain synchronous calls. There is no background task per send.
- `firmwareVersionCheck()` returns 0 on every path. So the
  `firmwareUpdate()` call in `loop()` can never run, and the HTTP update
  path never flashes an image or restarts the board. The model keeps this
  behaviour. (The local-network OTA listener served by `ArduinoOTA.handle()`
  can still flash and restart; see "## Left out".) The dead branch in
  `App.Esp32App.Loop` holds a verified `assert false`, and
  `App.TickNeverRestarts` states the consequence.

Two mismatches in the calling code are resolved by their evident intent, and
the Telemetry module's header comment records them:

- `dataSenders[i].send(i)` calls a `send()` that takes no argument.
- `new DataSender[numUrls]` needs a default constructor that `DataSender`
  does not have.

The model builds one sender per URL and calls `Send` once per index, in order.

## Model

| member | source | states |
|---|---|---|
| Clock.Millis | src/main.cpp:180 | the millis() reading is the true time reduced mod 2^32, and is the true time itself before the first wrap |
| Clock.Elapsed | src/main.cpp:150-153 | `currentMillis - previousMillis` on unsigned long is the forward distance from the previous to the current reading, adding 2^32 when the counter has wrapped in between |
| Clock.ElapsedIsTrueElapsed | src/main.cpp:180-182 | for any two true times less than 2^32 apart, the wrapped difference of their millis() readings equals the real time that has passed, across a rollover too |
| Clock.ElapsedAtMostTrue | src/main.cpp:180-182 | however far apart two readings are, the wrapped difference of their millis() values never exceeds the true time between them, so the gate can fire late but never early |
| Clock.DueIffIntervalPassed | src/main.cpp:182 | the gate fires exactly when at least 60000 ms of real time have passed since the last firing, whether or not millis() has wrapped |
| Clock.FirstFiringNotBeforeInterval | src/main.cpp:182-183 | with previousMillis starting at 0 (src/main.cpp:159), the gate fires before the first wrap exactly when millis() has reached 60000, so the first firing cannot come earlier |
| Clock.Due | src/main.cpp:182 | the gate holds exactly when the forward distance from previousMillis to currentMillis, counting through a wrap, is at least 60000 |
| Clock.Firings | src/main.cpp:176-189 | the gate over successive loop() calls: the firing times are at most as many as the ticks, and each is one of the ticks |
| Clock.FiringsAreSpaced | src/main.cpp:176-189 | over any sorted run of ticks starting no earlier than the last firing, of any length, across any number of rollovers and whatever the gaps between ticks, the first firing comes at least 60000 ms after the last one and consecutive firings are at least 60000 ms apart |
| Telemetry.LabelText | src/DataSender.cpp:21 | the record type is one of exactly two labels, "merdouille" or "commo on" |
| Telemetry.LabelOf | src/DataSender.cpp:21 | reading a label back yields a kind whose text is that label, and each of the two label texts does read back |
| Telemetry.Timestamp | src/DataSender.cpp:10-17 | with no local time it is exactly "0000-00-00T00:00:00Z"; otherwise it is the formatted local time |
| Telemetry.Random | src/DataSender.cpp:20-21 | random(lo, hi) lies in [lo, hi) for lo < hi and is lo otherwise |
| Telemetry.GenerateRecord | src/DataSender.cpp:19-21 | the value is between 1 and 20 inclusive, the label is "merdouille" exactly when random(0, 2) draws 0, and the timestamp is the sentinel when the clock is not synced |
| Telemetry.NatToDigits | src/DataSender.cpp:24 | String(n) of a non-negative value is a non-empty run of decimal digits |
| Telemetry.IntToString | src/DataSender.cpp:24 | String(n) is non-empty |
| Telemetry.DigitsRoundTrip | src/DataSender.cpp:24 | the decimal digits of a non-negative value read back as that value |
| Telemetry.IntToStringRoundTrip | src/DataSender.cpp:24 | the unquoted value, minus sign included, reads back as the value |
| Telemetry.IntToStringHasNoComma | src/DataSender.cpp:24 | the unquoted value never contains the ", " delimiter that follows it |
| Telemetry.SpanUntil | src/DataSender.cpp:23-25 | splitting at the first occurrence of a delimiter: the prefix does not contain it, the rest starts with it, and the two rebuild the input; no split means the delimiter is absent |
| Telemetry.SpanUntilFirst | src/DataSender.cpp:23-25 | a field free of the delimiter followed by the delimiter splits back into exactly that field and its continuation |
| Telemetry.StripPrefix | src/DataSender.cpp:23-25 | removing a fixed fragment succeeds exactly when the input starts with it and returns what follows |
| Telemetry.StripPrefixOf | src/DataSender.cpp:23-25 | a fragment followed by any text strips back to that text |
| Telemetry.ReadString | src/DataSender.cpp:23-25 | a quoted string field is read up to the closing quote, which starts the rest, and only when it needs no escaping |
| Telemetry.PlainHasNoQuote | src/DataSender.cpp:23 | a timestamp that needs no escaping contains no quote, so the closing quote is unambiguous |
| Telemetry.ParseTypeOf | src/DataSender.cpp:25 | the quoted type field and the closing brace read back as the label that was written |
| Telemetry.ParseValueAndTypeOf | src/DataSender.cpp:24-25 | the unquoted value field followed by the type field reads back as that value and label |
| Telemetry.Serialize | src/DataSender.cpp:23-25 | no ensures; the payload's shape is specified through `SerializeRoundTrip` and `SerializeInjective` |
| Telemetry.GenerateRandomData | src/DataSender.cpp:19-28 | no ensures; specified through `GeneratedPayloadReadsBack` |
| Telemetry.SerializeRoundTrip | src/DataSender.cpp:23-25 | for a timestamp with no quote, backslash or control character, the payload `{"timestamp": "<ts>", "value": <n>, "type": "<t>"}` parses back to exactly the record it was built from |
| Telemetry.SerializeInjective | src/DataSender.cpp:23-25 | two records with such timestamps give the same payload only if they are the same record: the three fields are recovered unambiguously |
| Telemetry.GeneratedPayloadReadsBack | src/DataSender.cpp:19-28 | for a local time that needs no JSON escape (no quote, backslash or control character), every payload generateRandomData() builds reads back with the sentinel or the local time as timestamp, a value between 1 and 20 and one of the two labels |
| Telemetry.SendEffects | src/DataSender.cpp:33-49 | no ensures; the reference for `DataSender.Send`, specified through `SendEffectsShape`, `SendBegins` and `SendNeverRestarts` |
| Telemetry.SendEffectsShape | src/DataSender.cpp:33-49 | send() does nothing at all when disconnected; when connected it calls begin() with its URL, sets "Content-Type: application/json" before the POST, ends the request on both branches, and reports success exactly for a status code above 0, 4xx and 5xx included |
| Telemetry.SendBegins | src/DataSender.cpp:34-39 | a connected send() calls `begin()` once, with its own URL, and a disconnected one calls it not at all |
| Telemetry.SendNeverRestarts | src/DataSender.cpp:33-49 | send() never flashes firmware and never restarts the board |
| Telemetry.SentBodyReadsBack | src/DataSender.cpp:37-42 | for a local time that needs no JSON escape (no quote, backslash or control character), the body a connected send() POSTs parses as a record with a value between 1 and 20 and the expected timestamp |
| Telemetry.DataSender.constructor | src/DataSender.cpp:31 | the sender keeps its endpoint URL |
| Telemetry.DataSender.Send | src/DataSender.cpp:33-49 | the effects of send() are exactly those described by `SendEffects`, appended to the trace, and the board is not restarted |
| Connectivity.Waits | src/main.cpp:59 | the retry loop's n one-second waits are n wait effects and nothing else |
| Connectivity.ReconnectEffects | src/main.cpp:67-69 | no ensures; the reference for `ReconnectIfNeeded`: a join request exactly when the link is down |
| Connectivity.WiFiManager.constructor | src/main.cpp:37-38 | the manager keeps its SSID and its attempt ceiling |
| Connectivity.WiFiManager.Connect | src/main.cpp:40-63 | connect() resets attempts to 0, issues one join, waits at most connectionTimeout seconds, stops at the first poll that finds the link up, ends with 0 <= attempts <= connectionTimeout + 1, and logs the outcome of one last status reading |
| Connectivity.WiFiManager.ReconnectIfNeeded | src/main.cpp:65-69 | a join request is issued exactly when the link is down, and nothing else happens |
| Ota.TrimStart | src/main.cpp:126 | leading whitespace removal yields a suffix that starts with a non-space, and only spaces were dropped |
| Ota.TrimEnd | src/main.cpp:126 | trailing whitespace removal yields a prefix that ends with a non-space, and only spaces were dropped |
| Ota.Trim | src/main.cpp:126 | String::trim() is never longer than its input and starts and ends with a non-space |
| Ota.TrimIsSlice | src/main.cpp:126 | the trimmed string is a contiguous slice of the input with only whitespace on either side |
| Ota.TrimStartOfTrimmed | src/main.cpp:126 | trimming the start of a string that starts with a non-space changes nothing |
| Ota.TrimEndOfTrimmed | src/main.cpp:126 | trimming the end of a string that ends with a non-space changes nothing |
| Ota.TrimIdempotent | src/main.cpp:126 | trimming twice is trimming once |
| Ota.UpdateOption | src/main.cpp:129-133 | the option passed to handleUpdate() is 0 exactly when the trimmed body equals FirmwareVer, and 1 otherwise |
| Ota.CheckVersion | src/main.cpp:114-137 | on a failed begin or a status other than 200 the globals are untouched; on 200 `payload` becomes the trimmed body, and FirmwareVer is kept when equal to it and replaced by it otherwise |
| Ota.VersionCheckEffects | src/main.cpp:114-137 | no ensures; the reference for `FirmwareVersionCheck`, specified through `VersionCheckBegins`, `VersionCheckNeverRestarts`, `FailedCheckChangesNothing`, `SameVersionIsKept` and `NewVersionIsAdopted` |
| Ota.VersionCheckBegins | src/main.cpp:120 | the version check calls `https.begin()` exactly once, with the version URL, whatever the reply (on the failed-begin path no request exists, but the call is made) |
| Ota.VersionCheckNeverRestarts | src/main.cpp:114-137 | the version check never flashes firmware and never restarts the board |
| Ota.FailedCheckChangesNothing | src/main.cpp:120-123 | a failed begin or a non-200 status leaves payload and FirmwareVer unchanged and logs nothing |
| Ota.SameVersionIsKept | src/main.cpp:125-130 | a 200 reply whose trimmed body equals FirmwareVer keeps the version and reports "already on the latest firmware" |
| Ota.NewVersionIsAdopted | src/main.cpp:131-133 | a 200 reply with a different trimmed body becomes FirmwareVer and is reported as new firmware |
| Ota.RepeatedCheckIsNoOp | src/main.cpp:125-134 | repeating the check with the same reply leaves the globals as the first check left them, and on 200 reports "already latest" |
| Ota.UpdateEffects | src/main.cpp:86-103 | the update always logs "Starting firmware update..." and then fetches the binary, and the board restarts exactly on HTTP_UPDATE_OK; FAILED and NO_UPDATES return normally |
| Ota.OtaHandler.HandleUpdate | src/main.cpp:106-111 | handleUpdate() logs "new firmware" with the payload for option 1, "already latest" otherwise, and returns its argument unchanged |
| Ota.OtaHandler.AdoptReply | src/main.cpp:125-134 | the 200 branch once the body is trimmed: `payload` and FirmwareVer both end up equal to the trimmed body, the request is ended, and the log says "already latest" exactly when the body equalled the old FirmwareVer and "new firmware" with the body otherwise |
| Ota.OtaHandler.FirmwareVersionCheck | src/main.cpp:114-137 | returns 0 on every path; the new globals are `CheckVersion` of the old ones and the reply; the effects are those of `VersionCheckEffects` |
| Ota.OtaHandler.FirmwareUpdate | src/main.cpp:81-104 | the effects are those of `UpdateEffects`, and the board is restarted exactly when the result is HTTP_UPDATE_OK |
| App.SendAllEffects | src/main.cpp:185 | no ensures; the reference for `SendAll`, specified through `SendPhaseOrder` and `SendPhaseNeverRestarts` |
| App.FiringEffects | src/main.cpp:183-187 | no ensures; the reference for a firing, specified through `FiringOrder` |
| App.TickEffects | src/main.cpp:176-189 | no ensures; the reference for `Loop`, specified through `TickNeverRestarts` |
| App.SendPhaseOrder | src/main.cpp:185 | the URLs passed to `begin()` by the send loop are those of the connected indices, one each, in increasing index order |
| App.ConnectedUrlsAllUp | src/main.cpp:185 | with the link up for every send, the URLs passed to `begin()` are exactly the configured ones, in order |
| App.FiringOrder | src/main.cpp:185-187 | in a firing, the URLs passed to `begin()` are the sends' first, in index order, and the version URL last |
| App.SendPhaseNeverRestarts | src/main.cpp:185 | no send of the send loop flashes firmware or restarts the board |
| App.TickNeverRestarts | src/main.cpp:176-189 | whatever the clock, the link and the servers answer, none of loop()'s modelled effects is a flash or a restart: `firmwareVersionCheck()` returns 0 on every path, so `firmwareUpdate()` is unreachable and the HTTP update path never flashes or restarts (the `ArduinoOTA.handle()` poll is an opaque effect; see "## Left out") |
| App.Esp32App.Urls | src/main.cpp:143-145 | one endpoint per sender, the i-th being the i-th sender's URL |
| App.Esp32App.constructor | src/main.cpp:158-163 | one sender per URL for the first numUrls URLs, in order, previousMillis at 0, the interval at 60000 ms and the WiFi ceiling at its default of 60 |
| App.Esp32App.Setup | src/main.cpp:167-174 | setup() is the blocking first join, with everything connect() promises: attempts stops at the first poll that finds the link up or one above the ceiling, and the outcome and effects follow from it |
| App.Esp32App.SendAll | src/main.cpp:185 | each sender's send() runs once, for indices 0 to numUrls - 1 in increasing order, and the board is not restarted |
| App.Esp32App.Loop | src/main.cpp:176-189 | currentMillis becomes millis(); previousMillis changes only when the wrapped elapsed time reaches 60000, and then becomes exactly currentMillis; the globals change only through a firing's version check; the effects are rejoin-if-down, the OTA poll, then on firing the sends in order and the version check; the restart flag is untouched, since the HTTP update branch `firmwareUpdate()` is never reached |

## Left out

- WiFi and EAP credential set-up, `WiFi.disconnect`, `WiFi.mode` and the radio itself (src/main.cpp:41-55): vendor APIs. The link state is an oracle reading.
- The HTTP and TLS transport, `setInsecure()`, `setLedPin()` and the streaming flash inside `httpUpdate.update`: library internals. Only the returned status, body or outcome is modelled.
- `ArduinoOTA.begin()` and `ArduinoOTA.handle()`: library calls. `handle()` is one `OtaPoll` effect per tick, with no outcome, and `setupOTA()` is not modelled. On the board, `handle()` serves the local-network OTA listener, which can flash an image pushed from the IDE and then restart the board; `OtaPoll` does not capture this, so `App.TickNeverRestarts` and `App.Esp32App.Loop` speak only of the HTTP update path.
- The unused `ESPAsyncHTTPUpdateServer` member: it is never called.
- App.TickNeverRestarts: covers only the HTTP update path (`firmwareUpdate()`), because the `OtaPoll` effect has no outcome; a local OTA upload served by `ArduinoOTA.handle()` can flash and restart the board, and the model does not say when.
- NTP set-up (`TimeManager::configure`, `configTime`): pass-through library calls.
- The `strftime("%FT%T%Z")` formatting and its 30-byte buffer: a synced time is an opaque string. The code does not guarantee a trailing `Z` there.
- `random()` itself: modelled as Arduino's range contract applied to an arbitrary draw.
- `Serial` output text and the `logs +=` accumulation: `logs` lives in a header that is not part of this model. Log lines are abstract `LogLine` events, one per printed message. The `"."` printed with each retry of connect() is part of the `WifiWait` effect, since the two are one comma expression.
- Heap management of the sender array, the destructor, and `ESP.restart()` semantics beyond a terminal flag.
- `https.end()` is not called when the version GET returns a status other than 200. The model records this faithfully: no `HttpEnd` effect on that path.
- Telemetry.Serialize: the payload's field-by-field shape is stated through the round trip (`SerializeRoundTrip`, `SerializeInjective`) rather than by an ensures of its own.
- Telemetry.GenerateRandomData: likewise stated through `GeneratedPayloadReadsBack`.
- Telemetry.SerializeRoundTrip: it covers only timestamps needing no JSON escaping. The source escapes nothing, so other timestamps give payloads that do not read back.
- Connectivity.WiFiManager.Connect: the `attempts++` on a C `int` is modelled on unbounded integers. It only differs when `connectionTimeout` is INT_MAX, and the app uses 60.
- Clock.DueIffIntervalPassed: the "exactly when" holds only for ticks less than 2^32 ms (about 49.7 days) after the last firing. A longer gap hides whole wraps from the 32-bit test, so the gate may fire late; `ElapsedAtMostTrue` shows it never fires early, which is why `FiringsAreSpaced` needs no such bound.
- String content: no NUL handling, encoding or locale. `String::trim()` uses the C-locale `isspace()` set.
