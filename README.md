# TradeForge futures client — order signing and TWAP slicing

This project models the two parts of the TradeForge command-line futures client that hold logic:

- **`BinanceClient`** (`src/client.py`):
  - `place_order` builds an insertion-ordered parameter dictionary.
  - `send_signed_request` stamps that dictionary in place with `timestamp`, signs it with HMAC-SHA256 over its form encoding, and appends `signature`. It then issues exactly one HTTP call and turns every failure into `None`.
- **`execute_twap_order`** (`src/advanced/twap.py`): the time-weighted average price strategy. It splits a total quantity into `slices` equal market orders, rounded to three decimals, and pauses `duration * 60 / slices` seconds between consecutive orders.

The project has five modules:

- `Values`: Python values, `str.upper` and `str(int)`.
- `Dict`: a Python `dict` as a sequence of key/value pairs in insertion order, `get`, `setitem`, and the mutable `ParamMap` class.
- `FormEncoding`: `urlencode` as `k=v` fields joined by `&`.
- `Client`: the signed-request client.
- `Twap`: the strategy.

The HMAC function and Python's `str` of a float are parameters (`Client.Primitives`). The clock reading and the network's outcome are inputs, one per slice in the strategy. The strategy's run is a trace of `Order` events (the call's arguments, the slice's clock reading, and the response it returned) and `Sleep` events, together with how the run ended; the signed requests the slices send are a ghost result of the run, which the strategy itself does not keep.

Where the code and its documentation differ, the model follows the code:

- No input is validated. A `LIMIT` order without a price is sent without a price, and a price is sent with any order type.
- `slices == 0` raises `ZeroDivisionError` before any order.
- A negative slice count places nothing and completes.
- With at least two slices, a negative duration places one order and then raises at `time.sleep` of a negative delay.
- Parameters travel in the URL query for POST as well as GET.
- Only statuses 400..599 are errors for `raise_for_status`. A 1xx, 3xx or non-standard status with a JSON body gives that JSON. A body that is JSON `null` gives `None`, like a failure.
- `method == "GET"` is compared case-sensitively; any other text means POST.
- Sending an already-signed dictionary again signs it with its stale `signature` still inside (`Client.ResendSignsStaleSignature`).

## Model

| member | source | states |
|---|---|---|
| Values.UpperSpec | src/client.py:51-53 | `upper` keeps the length, leaves no lower-case letter, changes no other character and maps each lower-case letter to its capital |
| Dict.AssignKeys | src/client.py:29-30 | `d[k] = v` keeps the keys and their order and appends `k` if it is new |
| Dict.AssignLookup | src/client.py:29-30 | after `d[k] = v`, `k` maps to `v` and every other key to its old value |
| Dict.AssignDistinct | src/client.py:29-30 | assignment keeps keys distinct |
| Dict.AssignNewKey | src/client.py:58-59 | assigning a key that is absent appends exactly that entry at the end |
| Dict.AssignReplace | src/client.py:29 | assigning a key that is present replaces its value where it stands, and the rest of the dictionary is unchanged |
| Dict.ParamMap.Set | src/client.py:29-30 | `self[k] = v` updates the dictionary in place and keeps its keys distinct |
| FormEncoding.EncodeSnoc | src/client.py:17 | appending an entry to a dictionary appends `&key=value` to its encoding |
| Client.SignedParamsSpec | src/client.py:16-30 | stamping and signing changes only `timestamp` and `signature`: other keys keep their values and their order; a missing key is appended, `timestamp` before `signature`; the signature is the HMAC under the secret of the encoding of the dictionary once the timestamp is in; distinct keys stay distinct |
| Client.SignedKeys | src/client.py:29-30 | after stamping and signing, the keys are the caller's in their order, then `timestamp` if it was missing, then `signature` if it was missing; distinct keys stay distinct |
| Client.SignatureCoversPrefix | src/client.py:16-30 | without a prior signature, the signature is appended last and covers exactly the stamped dictionary, so the transmitted query is the signed string followed by `&signature=<hmac>` |
| Client.SignedFreshParams | src/client.py:28-30 | a dictionary with neither key becomes itself plus `timestamp` and a signature over itself plus `timestamp` |
| Client.SignedNoParams | src/client.py:25-30 | with `params=None`, the request carries only `timestamp` and the HMAC of `timestamp=<ms>` |
| Client.ResendSignsStaleSignature | src/client.py:29-30 | re-sending a signed dictionary replaces the timestamp in place, but the new signature covers a string that still contains the old signature and is not the string before `&signature=` |
| Client.RestampKeepsPlace | src/client.py:29 | re-stamping a signed dictionary replaces `timestamp` where it stands |
| Client.ResignKeepsPlace | src/client.py:30 | re-signing replaces the last entry, `signature`, where it stands |
| Client.SignedLookup | src/client.py:29-30 | signing leaves every key other than `timestamp` and `signature` as it was |
| Client.ResponseOf | src/client.py:40-47 | a value is returned exactly when a response arrived with a status outside 400..599 and a JSON body other than `null`, and the value is that JSON; every other outcome, including a `null` body, gives `None` |
| Client.OrderParamsShape | src/client.py:49-59 | the keys are symbol, side, type, quantity, then price and timeInForce only for a truthy price, and they are distinct; symbol, side and type are upper-cased; quantity passes through unchanged; price is the caller's and timeInForce is `GTC`, both absent for a falsy price |
| Client.OrderRequestShape | src/client.py:49-62 | an order is a POST to `/fapi/v1/order` with the API-key header; its query is the order dictionary, then `timestamp`, then the HMAC of everything before it; the final key order is symbol, side, type, quantity, [price, timeInForce], timestamp, signature, without repeats |
| Client.OrderRequestLookups | src/client.py:49-62 | the sent query maps each order key to its upper-cased or passed-through value, price and `GTC` only for a truthy price, and `timestamp` to the clock reading |
| Client.SendSignedRequest | src/client.py:24-47 | the caller's dictionary (a fresh one for `None`) is stamped and signed in place; exactly one request is sent, carrying it; the result is the mapped outcome |
| Client.PlaceOrder | src/client.py:49-62 | the request sent is the order request for the arguments and the clock reading, and the result is the mapped outcome |
| Twap.Round3Error | src/advanced/twap.py:12 | `round(x, 3)` is within half a thousandth of `x` |
| Twap.Round3Nearest | src/advanced/twap.py:12 | no whole number of thousandths is nearer to `x` than the result, and a tie goes to the even count |
| Twap.Round3Exact | src/advanced/twap.py:12 | a whole number of thousandths is kept |
| Twap.SliceDelay | src/advanced/twap.py:13 | the delay times the slice count is the duration in seconds, untruncated; for a positive slice count the delay is negative exactly when the duration is |
| Twap.SliceDrift | src/advanced/twap.py:12-20 | the remainder is not absorbed: the slices together differ from the total by up to half a thousandth per slice |
| Twap.ThreeSlicesOfOneHundredth | src/advanced/twap.py:12 | 0.01 in three slices is 0.003 per slice, which does not add back up to 0.01 |
| Twap.PlaceSlice | src/advanced/twap.py:20 | the event a slice records is a MARKET order of the caller's symbol and side for the slice quantity with no price, at the given clock reading, with the mapped response; the request it sends is the order request for that call at that clock reading |
| Twap.ExecuteTwap | src/advanced/twap.py:6-26 | the trace and outcome of the loop are exactly the run `TwapRun`: zero slices raise before any order; otherwise slice `i` is its MARKET call stamped with slice `i`'s clock reading and the mapped reply, followed by a pause unless it is the last; a negative pause raises at the first pause. One signed request is sent per order in the trace, and the request slice `k` sends is `SliceRequest` for slice `k`: the slice call under the caller's configuration, stamped with slice `k`'s clock reading |
| Twap.ScheduleLength | src/advanced/twap.py:18-26 | after `i` slices of `n`, the trace has `2i` events, or `2i - 1` once the last slice is placed |
| Twap.ScheduleAt | src/advanced/twap.py:18-26 | even positions hold the slice orders in slice order; odd positions hold pauses |
| Twap.ScheduleCounts | src/advanced/twap.py:18-26 | `i` slices give `i` orders and `i` pauses, one fewer pause once the last slice is placed |
| Twap.SlicesShape | src/advanced/twap.py:18-26 | a whole run of `n >= 1` slices has `2n - 1` events: `n` orders and `n - 1` pauses, alternating, starting and ending with an order |
| Twap.SliceRequestShape | src/advanced/twap.py:20 | the request slice `k` sends (`Twap.ExecuteTwap`) is a signed POST to the order endpoint whose keys are symbol, side, type, quantity, timestamp, signature; symbol and side are upper-cased, the type is `MARKET`, the quantity is the slice quantity and the timestamp is that slice's clock reading |
| Twap.TwapCompletes | src/advanced/twap.py:12-26 | one slice, or several with a non-negative duration: the run completes with exactly `n` MARKET orders of the same rounded quantity and `n - 1` pauses of the computed delay, with no pause after the last order |
| Twap.TwapCutShort | src/advanced/twap.py:12-26 | zero slices raise before any order; a negative count places nothing; a negative duration with several slices places one order, then raises |
| Twap.RepliesDoNotSteer | src/advanced/twap.py:20-26 | whatever the exchange answers, including failures, the same orders and pauses happen in the same order and the run ends the same way |
| Twap.OneMinuteFiveSlices | src/advanced/twap.py:12-26 | 0.005 over one minute in five slices gives orders of 0.001 every 12 seconds: 9 events, 5 orders and 4 pauses |

## Left out

- HMAC-SHA256 and its hex digest are an uninterpreted parameter (`Primitives.hmacSha256Hex`). Signing is deterministic because the signature is a function of the secret and the encoded dictionary. That a change of any value changes the signature depends on the hash and is not modelled.
- `urlencode` is modelled without percent-escaping, and a float's text is Python's `str` passed in as `Primitives.floatText`.
- `str.upper` is modelled for the ASCII letters only.
- The internals of the `requests` library, JSON parsing and `raise_for_status` are not modelled. The network's answer is an `Outcome`: a status and a body that parsed or did not, or no response at all.
- Logging and `print` are not modelled. This includes the `if response:` message, which has no effect on the run.
- `time.time()` is a parameter: the millisecond reading per request, or per slice in the strategy. `time.sleep` is a `Sleep` event.
- Python floats are modelled as exact reals: `round(x, 3)` rounds exactly to the nearest thousandth, ties to even. The binary representation of a double, which can tip a decimal tie, is not modelled, and neither is float division.
- The configuration module (`.env` loading, `exit(1)` when keys are missing) is not modelled: the key, secret and base URL are a `Client.Config` value.
- The command-line entry point is not modelled.
- The market-order and limit-order wrappers, which call `place_order` with `"MARKET"` or `"LIMIT"` and log the outcome, are not modelled.
- `KeyboardInterrupt` and other exceptions raised inside the strategy are not modelled. Network errors cannot escape, because `send_signed_request` catches every exception.
