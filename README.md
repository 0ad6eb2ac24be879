# Air-quality monitor: association retry and sampling cycle

A Dafny model of the two stateful parts of the ESP32 air-quality monitor
firmware (`project/src/main.c`):

- **Wi-Fi station association** (`wifi.dfy`, module `WiFiStation`). The
  event handler keeps a function-static retry counter bounded by
  `WIFI_MAX_RETRY = 3` and raises one of two event-group bits, `CONNECTED`
  or `CONN_FAILED`. `Step` is the handler as a function on a `Status`
  (counter, both bits, number of `esp_wifi_connect()` calls). `Run` applies
  it to a serialised sequence of notifications. The class `Station` holds
  the same four fields and updates them in place; its `HandleEvent` is
  proved equal to `Step`. `Associate` models the rendezvous in
  `WiFiInitStation`: notifications are handled until a bit is set. After
  that the handler is unregistered, so later notifications are never seen.
- **One sampling cycle** (`sampling.dfy`, module `Sampling`, with the `%d`
  rendering in `decimal.dfy`, module `DecimalText`). 64 interleaved raw
  reads per channel are summed and divided by 64 with C's truncating
  division. Each average goes through the vendor calibration, which is an
  uninterpreted function parameter (`Calibration`, from the subset type
  `Uint32` to itself), with the `int`/`uint32_t` conversions written out. Only the
  MQ7 voltage is rendered as decimal text into a 30-byte buffer and
  published on `/user/out/adc` with QoS 1 (at-least-once, section 4.3.2 of
  MQTT 3.1.1) and retain 0.

Notifications are a datatype: `StaStart`, `StaDisconnected`, `StaGotIp`, and
`Other(base, id)` for every other (base, id) pair the handler can receive.
The numeric ESP-IDF event identifiers are not part of this model.

The model follows the code on these points:
- `WiFiInitStation` returns nothing and its caller carries on either way.
  `Associate` returns the final status only so that it can be stated.
- The averaging count is the fixed `ADC_AVG_FLT_SAMPLES = 64`.
- The calibration is not claimed to be monotonic, because its code is not
  part of this model.

## Model

| member | source | states |
|---|---|---|
| `WiFiStation.Step` | project/src/main.c:126-150 | one handler call: keeps the counter in [0, 3]; never clears a bit; `CONNECTED` is set exactly by got-IP, which zeroes the counter; `CONN_FAILED` is set exactly by a disconnect with counter ≥ 3; one connect call exactly on start or on a disconnect with counter < 3, none otherwise; a disconnect adds 1 to the counter below 3 and leaves it at 3; the counter changes only by +1 on a retry or by a reset; at most one bit is raised per call |
| `WiFiStation.Run` | project/src/main.c:126-150 | over any sequence of notifications the counter stays within the bound, set bits stay set (so a finished wait stays finished), and each notification adds at most one connect call |
| `WiFiStation.Disconnects` | project/src/main.c:132-141 | `n` disconnects from counter `c` make exactly min(n, 3 − c) retries, each one connect call plus one counter step; `CONN_FAILED` is set iff n > 3 − c; `CONNECTED` is untouched |
| `WiFiStation.NoConnectAfterExhaustion` | project/src/main.c:133-140 | with the counter at 3, any number of disconnects issues no connect call and leaves the counter alone; it only sets `CONN_FAILED` |
| `WiFiStation.StartThenFourDisconnects` | project/src/main.c:129-140 | from start-up, start followed by 3 disconnects gives 4 connect calls and no bit; a 4th disconnect sets `CONN_FAILED` with still 4 connect calls |
| `WiFiStation.GotIpAfterRetries` | project/src/main.c:143-146 | got-IP after up to 3 retries sets `CONNECTED` and resets the counter to 0; the connect calls already made are kept |
| `WiFiStation.Station.constructor` | project/src/main.c:127 | the counter starts at 0 and both bits are clear |
| `WiFiStation.Station.HandleEvent` | project/src/main.c:126-150 | the in-place update of the counter, the bits and the connect count is exactly `Step` |
| `WiFiStation.Associate` | project/src/main.c:183-188 | the wait ends at the first notification after which a bit is set, and exactly one bit is set then; later notifications are not handled; if no bit is ever set, every notification is handled and the wait has not ended; the counter stays in [0, 3]; it is 0 when `CONNECTED` ended the wait and 3 when `CONN_FAILED` did |
| `Sampling.CDiv` | project/src/main.c:102-103 | C division of `int`: for a non-negative sum the quotient is its floor, for a negative sum it is rounded toward zero |
| `Sampling.MultisampleAverage` | project/src/main.c:96-103 | both accumulators start at 0, take 64 reads each, and end as the truncated mean of exactly those reads; with 12-bit reads each mean is in [0, 4095] |
| `Sampling.AccumulatorFitsInt` | project/src/main.c:96-101 | with reads in [0, 4095] every partial sum of the loop is in [0, 64·4095], below `INT_MAX` |
| `Sampling.MeanInAdcRange` | project/src/main.c:98-103 | the mean of 12-bit reads is a 12-bit code |
| `Sampling.MeanOfConstant` | project/src/main.c:98-103 | 64 identical reads `c` average to exactly `c`, also for negative `c` |
| `Sampling.Voltage` | project/src/main.c:106-107 | the millivolt value always fits a C `int`; for a 12-bit code whose calibrated value is at most `INT_MAX`, it equals the calibration's output |
| `Sampling.CyclePublish` | project/src/main.c:111-112 | the publish goes to `/user/out/adc` with QoS 1 and retain 0; its payload is well-formed decimal text of at most 11 characters that reads back to the MQ7 voltage; it is built from the MQ7 reads alone |
| `Sampling.SamplingCycle` | project/src/main.c:96-112 | one cycle computes both means and both voltages, makes exactly one publish call (the one `CyclePublish` describes), and the 30-byte buffer holds the whole rendering of the MQ7 voltage |
| `Sampling.FlatSignalScenario` | project/src/main.c:96-112 | 64 reads of 100 on MQ7 and 200 on MQ135 average to 100 and 200; the payload reads back to the calibrated value of 100 |
| `DecimalText.RenderRoundTrip` | project/src/main.c:111 | the `%d` text of any integer parses back to that integer and has the canonical shape: a minus sign exactly for negative values, then digits with no leading zero unless the text is "0" |
| `DecimalText.RenderLength` | project/src/main.c:111 | the `%d` text of any 32-bit `int` is at most 11 characters |
| `DecimalText.Bounded` | project/src/main.c:111 | `snprintf` into a buffer of `size` bytes keeps a prefix of the text of length min(length, size − 1) |

## Left out

- NVS initialisation and its erase-and-retry, `esp_netif_init`, event-loop creation, Wi-Fi driver initialisation and configuration (`project/src/main.c:67-76`, `155-179`). These are one-shot platform set-up that aborts on error.
- ADC width and attenuation configuration, `esp_adc_cal_characterize`, `adc1_get_raw` and `esp_adc_cal_raw_to_voltage`. These are vendor hardware calls. Raw reads are inputs, and the conversion is a function parameter.
- `MQTTEventHandler` and `MQTTClientStart`. They start the vendor client and only log its events. The publish call is modelled as a `PublishCall` record. Its returned message id is unused by the firmware and is not modelled.
- Concurrency. The handler runs on the event task while the start-up task blocks in `xEventGroupWaitBits`. Notifications are modelled as one serialised sequence, and the handler is taken as unregistered as soon as a bit is set. A notification that is handled between the wake-up and the unregistration is not modelled.
- The event group's creation and deletion, handler registration, and `vTaskDelay`. These are scheduling. The bits are plain booleans.
- The IP address carried by the got-IP notification. It is only logged.
- All `ESP_LOGI`/`printf` output, including the per-cycle diagnostic line, and the infinite `while (1)`. One cycle is modelled.
- The EN50291 alarm thresholds. They appear only as a comment and are not implemented.
- Sampling.MultisampleAverage: accumulates in unbounded integers. With reads outside the 12-bit range the C accumulator could overflow, which is undefined behaviour. `AccumulatorFitsInt` shows that this cannot happen for 12-bit reads.
