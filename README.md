# Decent Scale client, modelled in Dafny

A model of the Python client for the Decent Scale, a Bluetooth Low Energy
kitchen scale. It covers four parts of the client.

- **The wire protocol** (`protocol.dfy`):
  - the seven fixed 7-byte command frames: three tare variants, LED on and off, and timer start, stop and reset;
  - the XOR checksum;
  - validation and decoding of the weight notifications the scale pushes.
- **The device-name filter** (`scanner.dfy`): a scan reports the first advertisement whose name is exactly "Decent Scale".
- **The client object** (`client.dfy`):
  - the `DecentScale` class, with the connection flag, the last weight, the position of the rotating tare command, and a trace of every transport action taken;
  - the connection guard, `send` with its dropped-command fix, `connect`, `disconnect` and `auto_connect`.
- **Whole-client runs** (`scenarios.dfy`): what a caller of the client observes after short sequences of calls.

Weights are integer counts of tenths of a gram. The client divides this value by ten into a float; the model does not.

The radio link is not modelled as a device. Each action the client takes on it (scan, open, write, subscribe, unsubscribe, close) is appended to the `trace` field. What the radio would decide is passed in as a parameter:
- what a scan observes: a list of advertisements;
- whether a link comes up: a boolean.

The event-loop thread that runs the client's coroutines is replaced by direct calls.

The model follows the code as written wherever it differs from the documented design. Four differences matter:
- A notification is checked in this order: model byte, type byte, length, checksum.
- An empty frame, or a one-byte frame holding the model byte, makes the handler index past the end. This is the `IndexError` verdict.
- The weight is decoded before the checksum is tested.
- `disconnect` neither switches notifications off nor clears the weight, and it leaves the connection flag set. See Findings.

## Model

| member | source | states |
|---|---|---|
| Protocol.XorAll | pydecentscale/__init__.py:167 | the exclusive-or fold over a non-empty byte sequence: bit j of the result is set exactly when an odd number of the bytes have bit j set, so the result does not depend on the order of the bytes |
| Protocol.ChecksumOk | pydecentscale/__init__.py:167-168 | a frame passes the checksum test (its last byte equals the fold of the bytes before it) exactly when it has at least two bytes and the fold of the whole frame is zero |
| Protocol.XorAllUpdate | pydecentscale/__init__.py:167 | replacing one byte of a sequence changes its XOR checksum by exactly the old byte XOR the new byte |
| Protocol.Encode | pydecentscale/__init__.py:54-60 | each command has its fixed frame, and every frame is 7 bytes long |
| Protocol.CommandFrameValid | pydecentscale/__init__.py:54-60 | every command frame is 7 bytes and starts with 0x03; its last byte is the XOR of the first six, so it passes the client's own checksum test |
| Protocol.TareVariants | pydecentscale/__init__.py:54 | byte 2 of tare variant i is i; any two tare variants agree on every byte except 2 and 6; distinct variants differ at both of those bytes |
| Protocol.SignedBe16 | pydecentscale/__init__.py:164 | the signed big-endian value of two bytes lies in [-32768, 32767] |
| Protocol.Be16RoundTrip | pydecentscale/__init__.py:155-164 | for every value in [-32768, 32767], decoding its two big-endian two's-complement bytes gives the value back |
| Protocol.SignedBe16RoundTrip | pydecentscale/__init__.py:164 | for any two bytes, re-encoding their signed value gives the same two bytes back |
| Protocol.Inspect | pydecentscale/__init__.py:143-172 | the handler's tests, in code order, give a verdict; any weight it accepts is in the 16-bit signed range |
| Protocol.AcceptedIffWellFormed | pydecentscale/__init__.py:143-172 | a notification is accepted exactly when all four hold: byte 0 is 0x03; byte 1 is 0xCA or 0xCE; the length is 7 or 10; the checksum holds. The accepted weight is the signed value of bytes 2-3 |
| Protocol.IndexErrorIff | pydecentscale/__init__.py:146-151 | the handler indexes past the end of a frame exactly when the frame is empty, or is one byte long and holds the model byte |
| Protocol.WeightFrameRoundTrip | pydecentscale/__init__.py:155-172 | every weight in range, placed in a 7- or 10-byte frame of either accepted type with a correct checksum, is accepted with that same weight |
| Protocol.SingleByteCorruptionRejected | pydecentscale/__init__.py:167-170 | changing any single byte of an accepted frame makes the handler reject it |
| Protocol.DecodeExamples | pydecentscale/__init__.py:164 | bytes 00 64 decode to 100 (10.0 g) and FF FB to -5 (-0.5 g); the 7-byte frame 03 CE 00 64 00 00 A9 is accepted with weight 100 |
| Scanner.IsScale | pydecentscale/__init__.py:87 | the filter, which asks for a present, non-empty name equal to "Decent Scale", accepts a device exactly when its name is `Some("Decent Scale")` |
| Scanner.ScaleAddress | pydecentscale/__init__.py:85-93 | a scan gives no address exactly when no advertisement passes the filter; otherwise it gives the address of the first one that passes |
| Scanner.ThreeDevices | pydecentscale/__init__.py:86-90 | of three devices where only the middle one is the scale, the scan reports the middle one's address |
| Client.Transmission | pydecentscale/__init__.py:118-123 | one send writes the same frame twice with the dropped-command fix on, and once with it off |
| Client.Warmup | pydecentscale/__init__.py:199-201 | the warm-up is four writes with the dropped-command fix on and two with it off; the first half are all LED-off frames and the second half are all LED-on frames |
| Client.WrittenTransmission | pydecentscale/__init__.py:118-123 | the frames one send writes are [f, f] with the fix on and [f] with it off, and nothing else |
| Client.WarmupWrites | pydecentscale/__init__.py:199-201 | the warm-up after a fresh connection writes LED-off before LED-on, each once or twice depending on the fix |
| Client.Truthy | pydecentscale/__init__.py:217 | an address found by a scan counts as found unless it is `None` or the empty string, as in Python's truth test |
| Client.FirstHit | pydecentscale/__init__.py:215-219 | the first scan that finds a usable address: no earlier scan finds one, and when it is below n it does find one |
| Client.Rounds | pydecentscale/__init__.py:215 | the number of passes `range(n)` makes: n when n is not negative, and otherwise 0 |
| Client.DecentScale.constructor | pydecentscale/__init__.py:41-62 | by default the dropped-command fix is on; a new client is disconnected, has no weight, has the tare position at the first variant, and has taken no transport action |
| Client.DecentScale.Send | pydecentscale/__init__.py:118-123 | the trace grows by the frame written twice (fix on) or once (fix off) and by nothing else |
| Client.DecentScale.Tare | pydecentscale/__init__.py:125-126 | when connected, sends the current tare variant and advances the position by one modulo 3; when disconnected, trace and position are unchanged |
| Client.DecentScale.LedOn | pydecentscale/__init__.py:250-252 | when connected, sends the LED-on frame; when disconnected, nothing changes |
| Client.DecentScale.LedOff | pydecentscale/__init__.py:246-248 | when connected, sends the LED-off frame; when disconnected, nothing changes |
| Client.DecentScale.StartTime | pydecentscale/__init__.py:234-236 | when connected, sends the timer-start frame; when disconnected, nothing changes |
| Client.DecentScale.StopTime | pydecentscale/__init__.py:238-240 | when connected, sends the timer-stop frame; when disconnected, nothing changes |
| Client.DecentScale.ResetTime | pydecentscale/__init__.py:242-244 | when connected, sends the timer-reset frame; when disconnected, nothing changes |
| Client.DecentScale.NotificationHandler | pydecentscale/__init__.py:143-173 | the verdict is the handler's outcome: accepted, the first test that failed, or the index error it raises on an empty frame or on a one-byte frame holding 0x03; an accepted frame stores the signed value of bytes 2-3 as the weight; any frame that is not well formed leaves the weight as it was |
| Client.DecentScale.EnableNotification | pydecentscale/__init__.py:185-187 | when connected, subscribes to notifications; when disconnected, nothing changes |
| Client.DecentScale.DisableNotification | pydecentscale/__init__.py:180-191 | when connected, unsubscribes and clears the weight; when disconnected, trace and weight are unchanged |
| Client.DecentScale.FindAddress | pydecentscale/__init__.py:85-93 | one scan: returns no address exactly when no advertisement passes the name filter, and otherwise the first match |
| Client.DecentScale.OpenLink | pydecentscale/__init__.py:95-108 | one link attempt: the flag and the result are both the transport's answer |
| Client.DecentScale.Connect | pydecentscale/__init__.py:196-204 | returns the flag. When already connected, it stays connected and the transport is not touched. Otherwise the flag becomes the link outcome: on success one open then the LED-off/LED-on warm-up, on failure one open and no writes |
| Client.DecentScale.CloseLink | pydecentscale/__init__.py:110-116 | tears the link down and clears the flag; its result is `None` |
| Client.DecentScale.Disconnect | pydecentscale/__init__.py:206-211 | as written: a connected client is torn down but ends with the flag set and reports failure; a disconnected client is unchanged and reports success |
| Client.DecentScale.DisconnectCorrected | pydecentscale/__init__.py:206-211 | corrected: afterwards the client is disconnected and reports success, with one teardown if it was connected |
| Client.DecentScale.ScanRetrying | pydecentscale/__init__.py:214-221 | makes scans up to and including the first that finds a usable address, and at most n of them; it returns that address, or nothing usable when no scan finds one |
| Client.DecentScale.ConnectRetrying | pydecentscale/__init__.py:222-226 | makes link attempts up to and including the first that comes up, and at most n of them; it succeeds exactly when one comes up, or at once when already connected |
| Client.DecentScale.AutoConnect | pydecentscale/__init__.py:213-228 | at most n lookups and at most n connect attempts; no connect attempt without an address; true exactly when an address was found and a link came up (or was already up); with n <= 0 it returns false and makes no calls; n is 3 by default |
| Scenarios.FourTares | pydecentscale/__init__.py:54-55 | four tares after a fresh connection write tare variants 0, 1, 2, 0 |
| Scenarios.ConnectTwice | pydecentscale/__init__.py:196-204 | a second connect reports success and makes no transport action, whatever the transport would answer |
| Scenarios.GuardedWhileDisconnected | pydecentscale/__init__.py:74-83 | on a client that never connected, every guarded operation leaves the trace empty, the tare position at 0 and the weight as it was |
| Scenarios.DisableClearsWeight | pydecentscale/__init__.py:180-183 | while connected, a valid notification sets the weight and disabling notifications clears it |
| Scenarios.WrongModelByteIgnored | pydecentscale/__init__.py:146-148 | a frame whose model byte is 0x05 is rejected at the model-byte test and leaves the last accepted weight in place |
| Scenarios.EmptyNotificationRaises | pydecentscale/__init__.py:143-146 | an empty notification makes the handler index past the end, and the stored weight is kept |
| Scenarios.AutoConnectGivesUp | pydecentscale/__init__.py:213-228 | on a default client with no scale in range, auto-connect scans three times, never opens a link and returns false |
| Scenarios.DisconnectKeepsFlag | pydecentscale/__init__.py:206-211 | as written: after connect then disconnect, the call reports failure, the flag is still set and a guarded command still writes |
| Scenarios.DisconnectCorrectedClearsFlag | pydecentscale/__init__.py:206-211 | corrected: after connect then disconnect, the call reports success, the flag is clear and a guarded command writes nothing |

## Left out

- The asyncio event-loop thread and `run_coro` (`pydecentscale/__init__.py:18-37`): coroutines are modelled as direct synchronous calls.
- Restarting the thread inside `_connect` is not modelled. It only concerns the thread.
- The Bluetooth library (scanner, client, GATT writes, notify subscriptions) is not modelled as a device:
  - its outcomes are parameters: the advertisements each scan sees, and whether each link attempt comes up;
  - its actions are entries in `trace`.
- Creating a fresh library client object on every connect attempt is not modelled.
- The characteristic UUIDs and the scan timeout (`timeout=20`) are not modelled.
- The defaults `fix_dropped_command=True` and `n_retries=3` are kept as Dafny default arguments. In `AutoConnect`, `nRetries` is the last parameter rather than the only one, because the scan and link outcomes come before it.
- The `asyncio.sleep` delays between writes and after subscribing: time is not modelled.
- `weight_lock` and the locked `weight` property: the weight is a plain field, because the lock only matters under concurrency.
- Other threads calling `connect` or the handler at the same time as the client's own methods are not modelled.
- The division of the raw value by ten into a float (`pydecentscale/__init__.py:164`): weights stay integer tenths of a gram.
- All logging is left out.
- The handler's own `IndexError` is modelled as a verdict, not as an exception: the method returns normally, the caller sees `IndexError`, and the weight is unchanged.
- Exceptions raised by the library during a write, subscribe or teardown are not modelled. The model's teardown always succeeds; that is the case the Findings row needs.
- A connect attempt that raises is modelled as a link that does not come up, which is what the code's handler does.
- The `None` that guarded operations return while disconnected is not modelled. The guarded methods return nothing; their contracts state that the state is unchanged.
- Negative `n_retries` in `auto_connect` are not rejected: `range` of a negative number makes no passes, and `Rounds` models that.
- `FoodScalesAPI.py` is not part of this model. It is a web service and polling loop around the client.
- `ImageInjector.py` and `ImageInjector_2.0.py` are not part of this model. They are database insertion scripts.

## Findings

| source | as written | input that shows it | evidently intended | confidence | as-written member | corrected member |
|---|---|---|---|---|---|---|
| pydecentscale/__init__.py:206-211 | `disconnect` sets the flag to `not` the teardown coroutine's result. That result is always `None`, so the flag becomes true again | `connect` with a link that comes up, then `disconnect` | after a teardown the flag is false and `disconnect` returns true | high, not executed | Scenarios.DisconnectKeepsFlag | Client.DecentScale.DisconnectCorrected |
