/**
 * The Decent Scale client: a connection flag, the last decoded weight, the
 * position of the rotating tare command, and the radio link.
 *
 * The link is not modelled as a device. Every transport action the client
 * takes is appended to `trace`, and the outcomes the radio would decide
 * (what a scan sees, whether a link comes up) are parameters of the
 * operations that need them. The event-loop thread that runs the
 * coroutines is replaced by direct calls, and the delays between writes
 * are left out.
 */
module Client {

  import opened Wrappers
  import opened Protocol
  import opened Scanner
  import Search

  /** One action of the client on the radio link, in the order taken. */
  datatype Event =
    | Scan                     // one run of the device scanner
    | Open(address: Address)   // one attempt to establish the link
    | Write(frame: Frame)      // one write to the command characteristic
    | Subscribe                // notifications switched on
    | Unsubscribe              // notifications switched off
    | Close                    // the link torn down

  /** The writes one `send` makes: the frame once, and a second identical
      copy when the dropped-command fix is on. */
  function Transmission(f: Frame, fixDropped: bool): (evs: seq<Event>)
    ensures |evs| == if fixDropped then 2 else 1
    ensures forall i :: 0 <= i < |evs| ==> evs[i] == Write(f)
  {
    if fixDropped then [Write(f), Write(f)] else [Write(f)]
  }

  /** The warm-up after a fresh connection: LED off, then LED on. */
  function Warmup(fixDropped: bool): (evs: seq<Event>)
    ensures |evs| == if fixDropped then 4 else 2
    ensures forall i :: 0 <= i < |evs| / 2 ==> evs[i] == Write(Encode(Command.LedOff))
    ensures forall i :: |evs| / 2 <= i < |evs| ==> evs[i] == Write(Encode(Command.LedOn))
  {
    Transmission(Encode(Command.LedOff), fixDropped) + Transmission(Encode(Command.LedOn), fixDropped)
  }

  /** The frames written to the command characteristic, in order. */
  function Written(evs: seq<Event>): seq<Frame>
  {
    if evs == [] then []
    else (if evs[0].Write? then [evs[0].frame] else []) + Written(evs[1..])
  }

  /** The frames written by two runs in a row are those of the first run
      followed by those of the second. */
  lemma {:induction false} WrittenAppend(a: seq<Event>, b: seq<Event>)
    ensures Written(a + b) == Written(a) + Written(b)
  {
    if a == [] {
      assert a + b == b;
    } else {
      assert (a + b)[0] == a[0];
      assert (a + b)[1..] == a[1..] + b;
      WrittenAppend(a[1..], b);
    }
  }

  /** One `send` writes its frame once, or twice with the fix on. */
  lemma WrittenTransmission(f: Frame, fixDropped: bool)
    ensures Written(Transmission(f, fixDropped)) == if fixDropped then [f, f] else [f]
  {
    var evs := Transmission(f, fixDropped);
    if fixDropped {
      assert evs[1..] == [Write(f)] && evs[1..][1..] == [];
      assert Written(evs[1..]) == [f];
    } else {
      assert evs[1..] == [];
    }
  }

  /** The warm-up writes LED off before LED on, each once or twice. */
  lemma WarmupWrites(fixDropped: bool)
    ensures Written(Warmup(fixDropped)) ==
      if fixDropped then [Encode(Command.LedOff), Encode(Command.LedOff), Encode(Command.LedOn), Encode(Command.LedOn)]
      else [Encode(Command.LedOff), Encode(Command.LedOn)]
  {
    WrittenAppend(Transmission(Encode(Command.LedOff), fixDropped), Transmission(Encode(Command.LedOn), fixDropped));
    WrittenTransmission(Encode(Command.LedOff), fixDropped);
    WrittenTransmission(Encode(Command.LedOn), fixDropped);
  }

  /** Python truthiness of a looked-up address: present and non-empty.
      The only falsy addresses are `None` and the empty string. */
  predicate Truthy(a: Option<Address>)
    ensures !Truthy(a) <==> a == None || a == Some("")
  {
    a.Some? && a.value != ""
  }

  /** The `i`-th scan of a run finds a usable address. */
  predicate Hit(scans: nat -> seq<Advertisement>, i: nat)
  {
    Truthy(ScaleAddress(scans(i)))
  }

  /** `n` copies of one event. */
  function Repeat(e: Event, n: nat): (r: seq<Event>)
    ensures |r| == n
    ensures forall i :: 0 <= i < n ==> r[i] == e
  {
    if n == 0 then [] else Repeat(e, n - 1) + [e]
  }

  /** The first of the first `n` scans that finds a usable address, or
      `n` when none does. */
  function FirstHit(scans: nat -> seq<Advertisement>, n: nat): (k: nat)
    ensures k <= n
    ensures forall i :: 0 <= i < k ==> !Hit(scans, i)
    ensures k < n ==> Hit(scans, k)
  {
    var hit := (i: nat) => Hit(scans, i);
    var k := Search.FirstIndex(hit, n);
    assert forall i :: 0 <= i < k ==> !Hit(scans, i) by {
      forall i | 0 <= i < k ensures !Hit(scans, i) {
        assert !hit(i);
      }
    }
    assert k < n ==> hit(k);
    k
  }

  /** How many times `range(n)` iterates. */
  function Rounds(n: int): (r: nat)
    ensures r <= if n < 0 then 0 else n
    ensures n >= 0 ==> r == n
  {
    if n < 0 then 0 else n
  }

  class DecentScale {

    /** Whether every command is written a second time (on by default). */
    const fixDroppedCommand: bool

    /** What the client believes about the link. */
    var connected: bool

    /** The last accepted weight in tenths of a gram, or `None`. */
    var weight: Option<int>

    /** Which tare frame the next tare sends. */
    var tareIndex: TareIndex

    /** Every transport action taken so far. */
    var trace: seq<Event>

    constructor (fixDroppedCommand: bool := true)
      ensures this.fixDroppedCommand == fixDroppedCommand
      ensures !connected && weight == None && tareIndex == 0 && trace == []
    {
      this.fixDroppedCommand := fixDroppedCommand;
      connected := false;
      weight := None;
      tareIndex := 0;
      trace := [];
    }

    // -------------------------------------------------------------------
    // Writing commands
    // -------------------------------------------------------------------

    /** Writes one frame, twice when the dropped-command fix is on. */
    method Send(f: Frame)
      modifies this`trace
      ensures trace == old(trace) + Transmission(f, fixDroppedCommand)
    {
      trace := trace + [Write(f)];
      if fixDroppedCommand {
        trace := trace + [Write(f)];
      }
    }

    /** Sends the current tare frame and moves to the next of the three.
        While disconnected nothing happens. */
    method Tare()
      modifies this`trace, this`tareIndex
      ensures old(connected) ==> trace == old(trace) + Transmission(Encode(Command.Tare(old(tareIndex))), fixDroppedCommand)
                                 && tareIndex == (old(tareIndex) + 1) % 3
      ensures !old(connected) ==> trace == old(trace) && tareIndex == old(tareIndex)
    {
      if connected {
        Send(Encode(Command.Tare(tareIndex)));
        tareIndex := (tareIndex + 1) % 3;
      }
    }

    /** Sends the LED-on frame; while disconnected nothing happens. */
    method LedOn()
      modifies this`trace
      ensures trace == old(trace) + if connected then Transmission(Encode(Command.LedOn), fixDroppedCommand) else []
    {
      if connected {
        Send(Encode(Command.LedOn));
      }
    }

    /** Sends the LED-off frame; while disconnected nothing happens. */
    method LedOff()
      modifies this`trace
      ensures trace == old(trace) + if connected then Transmission(Encode(Command.LedOff), fixDroppedCommand) else []
    {
      if connected {
        Send(Encode(Command.LedOff));
      }
    }

    /** Sends the timer-start frame; while disconnected nothing happens. */
    method StartTime()
      modifies this`trace
      ensures trace == old(trace) + if connected then Transmission(Encode(Command.StartTimer), fixDroppedCommand) else []
    {
      if connected {
        Send(Encode(Command.StartTimer));
      }
    }

    /** Sends the timer-stop frame; while disconnected nothing happens. */
    method StopTime()
      modifies this`trace
      ensures trace == old(trace) + if connected then Transmission(Encode(Command.StopTimer), fixDroppedCommand) else []
    {
      if connected {
        Send(Encode(Command.StopTimer));
      }
    }

    /** Sends the timer-reset frame; while disconnected nothing happens. */
    method ResetTime()
      modifies this`trace
      ensures trace == old(trace) + if connected then Transmission(Encode(Command.ResetTimer), fixDroppedCommand) else []
    {
      if connected {
        Send(Encode(Command.ResetTimer));
      }
    }

    // -------------------------------------------------------------------
    // Notifications
    // -------------------------------------------------------------------

    /** Handles one pushed frame: an accepted frame replaces the weight,
        any other frame leaves it as it was. The verdict tells the caller
        which test rejected the frame, and `IndexError` stands for the
        exception the handler raises when it indexes past the end. The
        handler runs whenever the device pushes, whatever the connection
        flag says. */
    method NotificationHandler(data: Frame) returns (verdict: Verdict)
      modifies this`weight
      ensures verdict == Inspect(data)
      ensures verdict.Accepted? ==> weight == Some(SignedBe16(data[2], data[3]))
      ensures !WellFormed(data) ==> weight == old(weight)
    {
      verdict := Inspect(data);
      AcceptedIffWellFormed(data);
      if verdict.Accepted? {
        weight := Some(verdict.weight);
      }
    }

    /** Subscribes to notifications; while disconnected nothing happens. */
    method EnableNotification()
      modifies this`trace
      ensures trace == old(trace) + if connected then [Subscribe] else []
    {
      if connected {
        trace := trace + [Subscribe];
      }
    }

    /** Unsubscribes and forgets the weight; while disconnected nothing
        happens. */
    method DisableNotification()
      modifies this`trace, this`weight
      ensures connected ==> trace == old(trace) + [Unsubscribe] && weight == None
      ensures !connected ==> trace == old(trace) && weight == old(weight)
    {
      if connected {
        trace := trace + [Unsubscribe];
        weight := None;
      }
    }

    // -------------------------------------------------------------------
    // Connection
    // -------------------------------------------------------------------

    /** One scan: the address of the first advertisement named
        "Decent Scale" among those the scan observes. */
    method FindAddress(ads: seq<Advertisement>) returns (address: Option<Address>)
      modifies this`trace
      ensures trace == old(trace) + [Scan]
      ensures address.None? <==> forall i :: 0 <= i < |ads| ==> !IsScale(ads[i])
      ensures address == ScaleAddress(ads)
    {
      trace := trace + [Scan];
      address := ScaleAddress(ads);
    }

    /** One attempt to bring the link up; `linkUp` is the transport's
        answer (a refused or failed connection is `false`). */
    method OpenLink(address: Address, linkUp: bool) returns (ok: bool)
      modifies this`trace, this`connected
      ensures trace == old(trace) + [Open(address)]
      ensures ok == linkUp && connected == linkUp
    {
      trace := trace + [Open(address)];
      connected := linkUp;
      ok := linkUp;
    }

    /** Connects unless already connected; a fresh connection is followed
        by the LED warm-up. Reports the connection flag. */
    method Connect(address: Address, linkUp: bool) returns (ok: bool)
      modifies this`trace, this`connected
      ensures ok == connected
      ensures old(connected) ==> connected && trace == old(trace)
      ensures !old(connected) ==> connected == linkUp
      ensures !old(connected) ==> trace == old(trace) + [Open(address)] + if linkUp then Warmup(fixDroppedCommand) else []
    {
      if !connected {
        connected := OpenLink(address, linkUp);
        if connected {
          LedOff();
          LedOn();
        }
      }
      ok := connected;
    }

    /** Tears the link down and clears the flag; its coroutine result is
        `None`. */
    method CloseLink() returns (result: Option<bool>)
      modifies this`trace, this`connected
      ensures trace == old(trace) + [Close]
      ensures !connected && result == None
    {
      trace := trace + [Close];
      connected := false;
      result := None;
    }

    /** Disconnect as the client does it: the flag is set to the negation of
        the teardown's result, which is always `None`, so after a teardown
        the flag is set again and the call reports failure. Notifications
        stay on and the weight is kept. */
    method Disconnect() returns (ok: bool)
      modifies this`trace, this`connected
      ensures ok == !connected
      ensures old(connected) ==> trace == old(trace) + [Close] && connected
      ensures !old(connected) ==> trace == old(trace) && !connected
    {
      if connected {
        var result := CloseLink();
        connected := result != Some(true);  // `not result`
      }
      ok := !connected;
    }

    /** Disconnect with the teardown's effect on the flag kept: afterwards
        the client is disconnected and says so. */
    method DisconnectCorrected() returns (ok: bool)
      modifies this`trace, this`connected
      ensures ok && !connected
      ensures trace == old(trace) + if old(connected) then [Close] else []
    {
      if connected {
        var _ := CloseLink();
      }
      ok := !connected;
    }

    /** The scanning half of auto-connect: up to `n` scans, stopping at the
        first that finds a usable address. */
    method ScanRetrying(n: nat, scans: nat -> seq<Advertisement>)
      returns (address: Option<Address>, ghost lookups: nat)
      modifies this`trace
      ensures var hit := FirstHit(scans, n);
              && lookups == (if hit < n then hit + 1 else n)
              && (Truthy(address) <==> hit < n)
              && (hit < n ==> address == ScaleAddress(scans(hit)))
              && trace == old(trace) + Repeat(Scan, lookups)
    {
      ghost var hit := FirstHit(scans, n);
      address := None;
      var i := 0;
      while i < n
        invariant i <= n && i <= hit
        invariant !Truthy(address)
        invariant trace == old(trace) + Repeat(Scan, i)
      {
        address := FindAddress(scans(i));
        i := i + 1;
        if Truthy(address) {
          assert Hit(scans, i - 1);
          break;
        }
        assert !Hit(scans, i - 1);
      }
      lookups := i;
    }

    /** The connecting half of auto-connect: up to `n` connects to
        `address`, stopping at the first that reports success. */
    method ConnectRetrying(address: Address, n: nat, links: nat -> bool)
      returns (ok: bool, ghost attempts: nat)
      modifies this`trace, this`connected
      ensures var up := Search.FirstIndex(links, n);
              && attempts == (if old(connected) then 0 else if up < n then up + 1 else n)
              && ok == (n > 0 && (old(connected) || up < n))
              && connected == (old(connected) || ok)
              && trace == old(trace) + Repeat(Open(address), attempts)
                          + (if ok && !old(connected) then Warmup(fixDroppedCommand) else [])
    {
      ghost var up := Search.FirstIndex(links, n);
      ghost var wasConnected := connected;
      attempts := 0;
      var j := 0;
      while j < n
        invariant j <= n && j <= up
        invariant wasConnected ==> j == 0
        invariant connected == wasConnected
        invariant attempts == j
        invariant trace == old(trace) + Repeat(Open(address), j)
      {
        var r := Connect(address, links(j));
        if r {
          ok := true;
          if !wasConnected {
            attempts := j + 1;
            assert links(j);
          }
          return;
        }
        assert !links(j);
        attempts := j + 1;
        j := j + 1;
      }
      ok := false;
    }

    /** Up to `nRetries` (by default three) scans, stopping at the first
        that finds an address; then, if one was found, up to `nRetries`
        connects to it, stopping at the first that succeeds. `scans(i)` is what the `i`-th scan observes
        and `links(j)` whether the `j`-th link attempt comes up. */
    method AutoConnect(scans: nat -> seq<Advertisement>, links: nat -> bool, nRetries: int := 3)
      returns (ok: bool, ghost lookups: nat, ghost attempts: nat)
      modifies this`trace, this`connected
      ensures lookups <= Rounds(nRetries) && attempts <= Rounds(nRetries)
      ensures Rounds(nRetries) == 0 ==> !ok && trace == old(trace) && connected == old(connected)
      ensures var n := Rounds(nRetries);
              var hit := FirstHit(scans, n);
              var up := Search.FirstIndex(links, n);
              && lookups == (if hit < n then hit + 1 else n)
              && attempts == (if hit < n && !old(connected) then (if up < n then up + 1 else n) else 0)
              && ok == (hit < n && (old(connected) || up < n))
              && connected == (old(connected) || ok)
              && trace == old(trace) + Repeat(Scan, lookups)
                          + (if hit < n then Repeat(Open(ScaleAddress(scans(hit)).value), attempts) else [])
                          + (if ok && !old(connected) then Warmup(fixDroppedCommand) else [])
    {
      var n := Rounds(nRetries);
      var address;
      address, lookups := ScanRetrying(n, scans);
      if Truthy(address) {
        ok, attempts := ConnectRetrying(address.value, n, links);
      } else {
        ok, attempts := false, 0;
      }
    }
  }
}
