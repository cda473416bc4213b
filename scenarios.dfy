/**
 * Whole-client runs on a fresh scale object, each stating what a caller of
 * the client observes afterwards.
 */
module Scenarios {

  import opened Wrappers
  import opened Protocol
  import opened Client

  /** A fresh client whose first connect succeeded. */
  method ConnectedScale(fixDropped: bool) returns (scale: DecentScale)
    ensures fresh(scale)
    ensures scale.connected && scale.fixDroppedCommand == fixDropped
    ensures scale.tareIndex == 0 && scale.weight == None
  {
    scale := new DecentScale(fixDropped);
    var _ := scale.Connect("scale", true);
  }

  /** One tare on a connected client without the dropped-command fix,
      returning the frame it wrote. */
  method ObservedTare(scale: DecentScale) returns (f: Frame)
    requires scale.connected && !scale.fixDroppedCommand
    modifies scale`trace, scale`tareIndex
    ensures scale.trace == old(scale.trace) + [Write(f)]
    ensures f == Encode(Tare(old(scale.tareIndex)))
    ensures scale.tareIndex == (old(scale.tareIndex) + 1) % 3
  {
    scale.Tare();
    f := scale.trace[|scale.trace| - 1].frame;
  }

  /** After a fresh connection, four tares write the tare variants 0, 1, 2
      and 0 again, and nothing else. */
  method FourTares() returns (sent: seq<Frame>)
    ensures sent == [Encode(Tare(0)), Encode(Tare(1)), Encode(Tare(2)), Encode(Tare(0))]
  {
    var scale := ConnectedScale(false);
    var f0 := ObservedTare(scale);
    var f1 := ObservedTare(scale);
    var f2 := ObservedTare(scale);
    var f3 := ObservedTare(scale);
    sent := [f0, f1, f2, f3];
  }

  /** A second connect on a connected client reports success and does not
      touch the transport, whatever the transport would have answered. */
  method ConnectTwice(linkUp: bool) returns (first: bool, second: bool, transportUsed: bool)
    ensures first && second && !transportUsed
  {
    var scale := new DecentScale();
    first := scale.Connect("scale", true);
    var before := scale.trace;
    second := scale.Connect("scale", linkUp);
    transportUsed := scale.trace != before;
  }

  /** On a client that never connected, every guarded operation does
      nothing: no transport action, the tare position stays at the first
      variant, and a weight decoded from a pushed frame survives
      `DisableNotification`. */
  method GuardedWhileDisconnected(w: int) returns (events: seq<Event>, index: nat, last: Option<int>)
    requires MinRaw <= w <= MaxRaw
    ensures events == [] && index == 0 && last == Some(w)
  {
    var scale := new DecentScale();
    var frame := WeightFrame(0xCE, w, [0x00, 0x00]);
    WeightFrameRoundTrip(0xCE, w, [0x00, 0x00]);
    var _ := scale.NotificationHandler(frame);
    scale.Tare();
    scale.LedOn();
    scale.LedOff();
    scale.StartTime();
    scale.StopTime();
    scale.ResetTime();
    scale.EnableNotification();
    scale.DisableNotification();
    events, index, last := scale.trace, scale.tareIndex, scale.weight;
  }

  /** While connected, a valid notification sets the weight and disabling
      notifications clears it again. */
  method DisableClearsWeight(w: int) returns (during: Option<int>, after: Option<int>)
    requires MinRaw <= w <= MaxRaw
    ensures during == Some(w) && after == None
  {
    var scale := new DecentScale(true);
    var _ := scale.Connect("scale", true);
    scale.EnableNotification();
    WeightFrameRoundTrip(0xCA, w, [0x00, 0x00, 0x00, 0x00, 0x00]);
    var _ := scale.NotificationHandler(WeightFrame(0xCA, w, [0x00, 0x00, 0x00, 0x00, 0x00]));
    during := scale.weight;
    scale.DisableNotification();
    after := scale.weight;
  }

  /** A frame whose model byte is 0x05 is discarded at the first test: the
      weight keeps the value of the last accepted frame. */
  method WrongModelByteIgnored(w: int) returns (verdict: Verdict, last: Option<int>)
    requires MinRaw <= w <= MaxRaw
    ensures verdict == BadModel && last == Some(w)
  {
    var scale := new DecentScale(false);
    var _ := scale.Connect("scale", true);
    scale.EnableNotification();
    var good := WeightFrame(0xCE, w, [0x00, 0x00]);
    WeightFrameRoundTrip(0xCE, w, [0x00, 0x00]);
    var _ := scale.NotificationHandler(good);
    var bad := good[0 := 0x05];
    verdict := scale.NotificationHandler(bad);
    last := scale.weight;
  }

  /** As written, disconnecting a connected client tears the link down but
      leaves the flag set and reports failure; guarded commands still write
      afterwards. */
  method DisconnectKeepsFlag() returns (ok: bool, stillConnected: bool, writesAfter: nat)
    ensures !ok && stillConnected && writesAfter == 1
  {
    var scale := new DecentScale(false);
    var _ := scale.Connect("scale", true);
    ok := scale.Disconnect();
    stillConnected := scale.connected;
    var before := |scale.trace|;
    scale.LedOn();
    writesAfter := |scale.trace| - before;
  }

  /** With the corrected disconnect the flag is cleared, the call reports
      success and guarded commands write nothing afterwards. */
  method DisconnectCorrectedClearsFlag() returns (ok: bool, stillConnected: bool, writesAfter: nat)
    ensures ok && !stillConnected && writesAfter == 0
  {
    var scale := new DecentScale(false);
    var _ := scale.Connect("scale", true);
    ok := scale.DisconnectCorrected();
    stillConnected := scale.connected;
    var before := |scale.trace|;
    scale.LedOn();
    writesAfter := |scale.trace| - before;
  }

  /** An empty notification makes the handler index past the end; the
      stored weight is not touched. */
  method EmptyNotificationRaises(w: int) returns (verdict: Verdict, last: Option<int>)
    requires MinRaw <= w <= MaxRaw
    ensures verdict == IndexError && last == Some(w)
  {
    var scale := new DecentScale();
    WeightFrameRoundTrip(0xCE, w, [0x00, 0x00]);
    var _ := scale.NotificationHandler(WeightFrame(0xCE, w, [0x00, 0x00]));
    verdict := scale.NotificationHandler([]);
    last := scale.weight;
  }

  /** With the default settings, auto-connect in range of no scale scans
      three times, never opens a link and reports failure. */
  method AutoConnectGivesUp() returns (ok: bool, events: seq<Event>)
    ensures !ok && events == [Scan, Scan, Scan]
  {
    var scale := new DecentScale();
    var noScale := (i: nat) => [];
    ghost var lookups, attempts;
    ok, lookups, attempts := scale.AutoConnect(noScale, (j: nat) => true);
    events := scale.trace;
  }
}
