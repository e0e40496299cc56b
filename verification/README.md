# gpsd Prometheus exporter — Dafny model

The exporter polls gpsd for the current fix and sets five Prometheus gauges:
`longitude`, `latitude`, `speed` (in knots), `altitude` and `satcount`. It
serves them over HTTP and, in debug mode, logs a snapshot of them after each
cycle. Most of the program is glue. This project models the logic it contains:

- `Validation.StrToBool` models `str_to_bool`. It maps a string to a boolean
  after lower-casing it, using two fixed sets of accepted spellings. Any other
  string gives the `ValueError` outcome (`Result.Err(NotABoolean(value))`).
- `Units.MpsToKnots` models `mps_to_knots`. This is the fixed factor
  1.94384 applied over exact reals.
- `Metrics.Gauges` is the five gauges as one immutable record.
  `Metrics.Publish` models `get_gpsd_data`, which sets every gauge from a packet.
  `Metrics.Snapshot` models `make_json`, which reads the gauges into a map keyed
  by gauge name. `Metrics.Restore` is the inverse of `Snapshot`. It is used to
  state that a snapshot loses nothing.
- `Exporter.Run` models the body of the `while True` loop as a loop over the
  packets that gpsd delivered, which are passed in as a parameter. It covers the
  publish in each cycle and the debug-mode log of `make_json()`.

Modules: `Wrappers` (Result/Option), `Ascii` (lower-casing), `Validation`,
`Units`, `Metrics`, `Exporter`.

Lower-casing is ASCII-only (`Ascii.Lower`). For `str_to_bool` this gives the
same accept/reject outcome as Python's full Unicode `str.lower()`. Python
lower-cases only two non-ASCII characters to strings containing ASCII letters:
U+0130 (to `i` plus a combining dot) and U+212A KELVIN SIGN (to `k`). Neither
`i` nor `k` appears in any accepted spelling.

## Model

| member | source | states |
|---|---|---|
| Ascii.Lower | gpsd_prometheus_exporter/main.py:46-48 | `value.lower()` on ASCII: same length, each character lower-cased, no upper-case letter left |
| Ascii.LowerChar | gpsd_prometheus_exporter/main.py:46-48 | one character lower-cased: `A`..`Z` go to the matching `a`..`z`, every other character is kept, and the result is never an upper-case letter |
| Ascii.LowerIdempotent | gpsd_prometheus_exporter/main.py:46-48 | lower-casing an already lower-cased string changes nothing |
| Ascii.SameUpToCaseIffSameLower | gpsd_prometheus_exporter/main.py:46-48 | two strings differ only in letter case exactly when their lower-cased forms are equal |
| Validation.StrToBool | gpsd_prometheus_exporter/main.py:45-50 | result is `false` iff the lower-cased input is in {false,f,0,no,n}; `true` iff it is in {true,t,1,yes,y}; the ValueError, carrying the input, iff it is in neither |
| Validation.Message | gpsd_prometheus_exporter/main.py:50 | the error text is the rejected input followed by " is not a valid boolean value" |
| Validation.AcceptedSetsDisjoint | gpsd_prometheus_exporter/main.py:46-49 | the two accepted sets are disjoint, so no input is accepted as both |
| Validation.StrToBoolCaseInsensitive | gpsd_prometheus_exporter/main.py:46-48 | inputs that differ only in case get the same outcome: the same boolean, or both the error |
| Validation.StrToBoolFalseExactly | gpsd_prometheus_exporter/main.py:46-47 | `false` is returned exactly for the spellings of false in any letter case |
| Validation.StrToBoolTrueExactly | gpsd_prometheus_exporter/main.py:48-49 | `true` is returned exactly for the spellings of true in any letter case |
| Validation.StrToBoolRejectsTheRest | gpsd_prometheus_exporter/main.py:50 | an input that is no accepted spelling in any case raises the error and never yields a boolean |
| Validation.StrToBoolAcceptsMixedCase | gpsd_prometheus_exporter/main.py:46-49 | "Yes" gives true and "FALSE" gives false |
| Validation.StrToBoolRejectsEmpty | gpsd_prometheus_exporter/main.py:45-50 | the empty string is rejected |
| Validation.StrToBoolRejectsUnknownWord | gpsd_prometheus_exporter/main.py:45-50 | "maybe" is rejected |
| Validation.MessageExample | gpsd_prometheus_exporter/main.py:50 | the message for "maybe" is "maybe is not a valid boolean value" |
| Units.MpsToKnots | gpsd_prometheus_exporter/main.py:30-31 | zero maps to zero and only zero does; positive speeds grow and negative ones shrink |
| Units.MpsToKnotsLinear | gpsd_prometheus_exporter/main.py:30-31 | the conversion is linear |
| Units.MpsToKnotsMonotone | gpsd_prometheus_exporter/main.py:30-31 | the conversion preserves and reflects the order of speeds |
| Units.MpsToKnotsNonNegative | gpsd_prometheus_exporter/main.py:30-31 | non-negative speeds give non-negative knots |
| Units.MpsToKnotsCloseToExact | gpsd_prometheus_exporter/main.py:30-31 | 1.94384 is within 0.000005 of the exact 3600/1852 knots per m/s, so the result is within 0.000005·\|v\| of the exact conversion |
| Units.MpsToKnotsExamples | gpsd_prometheus_exporter/main.py:30-31 | 10 m/s is 19.4384 kn and 5 m/s is 9.7192 kn |
| Metrics.Snapshot | gpsd_prometheus_exporter/main.py:34-42 | the snapshot's keys are exactly the five gauge names |
| Metrics.SnapshotRestore | gpsd_prometheus_exporter/main.py:34-42 | the gauges can be rebuilt from their snapshot |
| Metrics.RestoreSnapshot | gpsd_prometheus_exporter/main.py:34-42 | any map keyed by exactly the five names is the snapshot of the gauges rebuilt from it |
| Metrics.SnapshotInjective | gpsd_prometheus_exporter/main.py:34-42 | two gauge states have equal snapshots exactly when they are equal |
| Metrics.Publish | gpsd_prometheus_exporter/main.py:21-42 | after publishing a packet, the snapshot holds lon, lat, speed in knots (through `MpsToKnots`), alt and sats under the five gauge names, and no other key (with `Snapshot`'s key set); `PublishForgetsPrior` and `PublishOverwrites` add that no earlier value survives |
| Metrics.PublishForgetsPrior | gpsd_prometheus_exporter/main.py:21-27 | the state after a publish does not depend on the state before it |
| Metrics.PublishOverwrites | gpsd_prometheus_exporter/main.py:21-27 | publishing p1 then p2 gives the same state as publishing p2 alone |
| Metrics.PublishInjective | gpsd_prometheus_exporter/main.py:21-27 | different packets give different gauge states |
| Metrics.PublishExample | gpsd_prometheus_exporter/main.py:21-42 | packet (-0.1, 51.5, 5.0 m/s, 100.0, 8) reads back with speed 9.7192 |
| Exporter.Run | gpsd_prometheus_exporter/main.py:84-89 | after the loop the gauges hold the last packet, or are unset if there was none; with debug on, the log has one snapshot per cycle holding exactly that cycle's packet; with debug off, the log is empty |

## Left out

- gpsd I/O (`gps_connect`, main.py:15-19): the packets it returns are the `fetched` parameter of `Exporter.Run`. A failed connect or fetch raises, ends the loop, and is not modelled.
- The HTTP server, the click CLI, logging setup and `time.sleep` (main.py:53-82, 87): these are I/O and scheduling. The loop is modelled over a finite list of packets rather than running forever.
- prometheus_client: gauges are plain record fields. The initial value of each gauge is taken to be 0.0. Help texts are not modelled.
- Satellite count: `SAT_COUNT.set(str(packet.sats))` relies on the gauge parsing the string into a float. The model stores the count as a real directly.
- Units.MpsToKnots: uses exact real arithmetic. Python's float rounding is not modelled. `Metrics.PublishInjective` and `Metrics.PublishExample` rely on this: with floats, `1.94384 * mps` can round two different speeds to the same value, and 5.0 m/s need not give exactly 9.7192.
- Ascii.Lower: lower-cases ASCII letters only. Python's `str.lower()` is Unicode-aware. This does not change any `str_to_bool` outcome (see above).
- `str_to_bool` is not called anywhere in the program. `--debug` is a click flag, so the validator is modelled on its own.
- Metrics.Publish: `get_gpsd_data` sets the five gauges with five separate calls, while the HTTP server started at main.py:82 answers scrapes from its own thread. A scrape between two of those calls can see values from two different packets. The model makes the five sets one atomic update, so it does not cover such mixed reads.
- Reconnection: every cycle calls `gps_connect`, which calls `gpsd.connect()` again (main.py:85, 16). The model covers this only in that each cycle's packet is a separate parameter. There is no retry after a failed connect or fetch, and nothing about that is modelled.
- Other speed units and no-fix handling are not modelled, because the code contains neither.
