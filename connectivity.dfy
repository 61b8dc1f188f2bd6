/**
 * WiFiManager (src/main.cpp:27-70): joins the enterprise network once at
 * start-up with a bounded one-second retry loop, and re-issues the join on
 * every scheduler tick while the link is down. The radio is not modelled:
 * each WiFi.status() reading is an oracle answer.
 */
module Connectivity {
  import opened Board

  /** How many failed polls the retry loop tolerates before it gives up. */
  function Ceiling(connectionTimeout: int): nat {
    if connectionTimeout > 0 then connectionTimeout else 0
  }

  function Min(a: nat, b: nat): nat {
    if a < b then a else b
  }

  /** `n` one-second waits. */
  function Waits(n: nat): (fx: seq<Effect>)
    ensures |fx| == n
    ensures forall e :: e in fx ==> e == WifiWait
  {
    if n == 0 then [] else Waits(n - 1) + [WifiWait]
  }

  /** reconnectIfNeeded(): a join request exactly when the link is down. */
  function ReconnectEffects(ssid: string, connected: bool): seq<Effect> {
    if connected then [] else [WifiBegin(ssid)]
  }

  class WiFiManager {
    const ssid: string
    const connectionTimeout: int
    var attempts: int

    /**
     * The credentials other than the SSID are handed to the EAP driver only,
     * which is not modelled. The source leaves `attempts` uninitialised;
     * nothing reads it before connect() resets it.
     */
    constructor (ssid: string, connectionTimeout: int)
      ensures this.ssid == ssid && this.connectionTimeout == connectionTimeout
    {
      this.ssid := ssid;
      this.connectionTimeout := connectionTimeout;
      attempts := 0;
    }

    /**
     * connect(): one join request, then the loop
     * `while (status != connected && attempts++ < connectionTimeout) delay(1000)`,
     * then one more status reading that decides the log line.
     * `status(n)` is the answer of the n-th WiFi.status() call of this connect().
     * The loop stops at the first poll that finds the link up, waits at most
     * `connectionTimeout` seconds, and leaves `attempts` at most one above
     * the ceiling.
     */
    method Connect(world: World, status: nat -> bool) returns (connected: bool)
      modifies this, world
      ensures 0 <= attempts <= Ceiling(connectionTimeout) + 1
      ensures forall i :: 0 <= i < attempts ==> !status(i)
      ensures attempts <= Ceiling(connectionTimeout) ==> status(attempts)
      ensures connected == status(Min(attempts, Ceiling(connectionTimeout)) + 1)
      ensures world.trace == old(world.trace) + [WifiBegin(ssid)]
                             + Waits(Min(attempts, Ceiling(connectionTimeout)))
                             + [Log(if connected then WifiConnected else ConnectionFailed)]
      ensures world.restarted == old(world.restarted)
    {
      world.Emit(WifiBegin(ssid));
      ghost var joined := world.trace;
      ghost var ceiling := Ceiling(connectionTimeout);
      attempts := 0;
      var polls: nat := 0;
      var done := false;
      while !done
        invariant 0 <= attempts <= ceiling + 1
        invariant forall i :: 0 <= i < attempts ==> !status(i)
        invariant !done ==> polls == attempts <= ceiling
        invariant done ==> polls == Min(attempts, ceiling) + 1
        invariant done && attempts <= ceiling ==> status(attempts)
        invariant world.trace == joined + Waits(if done then Min(attempts, ceiling) else attempts)
        invariant world.restarted == old(world.restarted)
        decreases ceiling + 1 - attempts, if done then 0 else 1
      {
        // One evaluation of the loop condition, left to right.
        var up := status(polls);
        polls := polls + 1;
        if up {
          done := true;
        } else {
          var before := attempts;
          attempts := attempts + 1;
          if before < connectionTimeout {
            world.Emit(WifiWait);
          } else {
            done := true;
          }
        }
      }
      connected := status(polls);
      world.Emit(Log(if connected then WifiConnected else ConnectionFailed));
    }

    /** reconnectIfNeeded(): `connected` is the WiFi.status() reading. */
    method ReconnectIfNeeded(world: World, connected: bool)
      modifies world
      ensures world.trace == old(world.trace) + ReconnectEffects(ssid, connected)
      ensures world.restarted == old(world.restarted)
    {
      if !connected {
        world.Emit(WifiBegin(ssid));
      }
    }
  }
}
