/**
 * ESP32App (src/main.cpp:141-190): the cooperative scheduler. Every tick
 * re-joins WiFi if needed and polls the local OTA listener; when at least
 * `interval` ms have passed since the last firing, it sends one telemetry
 * record per configured URL, in index order, and then runs the firmware
 * version check. Sends are synchronous calls: there is no background task.
 */
module App {
  import opened Board
  import opened Clock
  import opened Telemetry
  import opened Connectivity
  import opened Ota

  /** The default attempt ceiling of WiFiManager. */
  const CONNECTION_TIMEOUT: int := 60

  /**
   * What one call of loop() gets from the outside world: the WiFi.status()
   * reading of reconnectIfNeeded(), millis(), what the i-th send sees, and
   * the version endpoint's reply.
   */
  datatype TickEnv = TickEnv(linkUp: bool, now: U32, sendEnv: nat -> SendEnv, versionReply: VersionReply)

  /** The effects of the sends of indices 0 .. n-1, in that order. */
  function SendAllEffects(urls: seq<string>, sendEnv: nat -> SendEnv, n: nat): seq<Effect>
    requires n <= |urls|
  {
    if n == 0 then [] else SendAllEffects(urls, sendEnv, n - 1) + SendEffects(urls[n - 1], sendEnv(n - 1))
  }

  lemma AppendAssoc<T>(a: seq<T>, b: seq<T>, c: seq<T>)
    ensures a + b + c == a + (b + c)
  {
  }

  lemma AppendAssoc5<T>(a: seq<T>, b: seq<T>, c: seq<T>, d: seq<T>, e: seq<T>)
    ensures a + b + c + d + e == a + (b + c + (d + e))
  {
  }

  lemma SendAllStep(urls: seq<string>, sendEnv: nat -> SendEnv, i: nat)
    requires i < |urls|
    ensures SendAllEffects(urls, sendEnv, i + 1) == SendAllEffects(urls, sendEnv, i) + SendEffects(urls[i], sendEnv(i))
  {
  }

  /** The effects of one periodic firing: every send, then the version check. */
  function FiringEffects(urls: seq<string>, versionUrl: string, fw: Firmware, env: TickEnv): seq<Effect> {
    SendAllEffects(urls, env.sendEnv, |urls|) + VersionCheckEffects(versionUrl, fw, env.versionReply)
  }

  /** The effects of one loop() call, given previousMillis and the globals before it. */
  function TickEffects(ssid: string, urls: seq<string>, versionUrl: string,
                       previousMillis: U32, fw: Firmware, env: TickEnv): seq<Effect>
  {
    ReconnectEffects(ssid, env.linkUp) + [OtaPoll]
    + (if Due(env.now, previousMillis) then FiringEffects(urls, versionUrl, fw, env) else [])
  }

  /** The URLs of the senders whose send() sees a connection, in index order. */
  function ConnectedUrls(urls: seq<string>, sendEnv: nat -> SendEnv, n: nat): seq<string>
    requires n <= |urls|
  {
    if n == 0 then []
    else ConnectedUrls(urls, sendEnv, n - 1) + (if sendEnv(n - 1).connected then [urls[n - 1]] else [])
  }

  /**
   * The send phase calls begin() once per connected index, with that
   * index's URL, in increasing index order.
   */
  lemma {:induction false} SendPhaseOrder(urls: seq<string>, sendEnv: nat -> SendEnv, n: nat)
    requires n <= |urls|
    ensures BegunUrls(SendAllEffects(urls, sendEnv, n)) == ConnectedUrls(urls, sendEnv, n)
  {
    if n > 0 {
      SendPhaseOrder(urls, sendEnv, n - 1);
      BegunUrlsAppend(SendAllEffects(urls, sendEnv, n - 1), SendEffects(urls[n - 1], sendEnv(n - 1)));
      SendBegins(urls[n - 1], sendEnv(n - 1));
    }
  }

  /** With the link up for every send, every URL is passed to begin(), in order. */
  lemma {:induction false} ConnectedUrlsAllUp(urls: seq<string>, sendEnv: nat -> SendEnv, n: nat)
    requires n <= |urls|
    requires forall i :: 0 <= i < n ==> sendEnv(i).connected
    ensures ConnectedUrls(urls, sendEnv, n) == urls[..n]
  {
    if n > 0 {
      ConnectedUrlsAllUp(urls, sendEnv, n - 1);
      assert urls[..n] == urls[..n - 1] + [urls[n - 1]];
    }
  }

  /**
   * In a firing, the sends call begin() first, in index order, and the
   * version check calls it last.
   */
  lemma FiringOrder(urls: seq<string>, versionUrl: string, fw: Firmware, env: TickEnv)
    ensures BegunUrls(FiringEffects(urls, versionUrl, fw, env))
            == ConnectedUrls(urls, env.sendEnv, |urls|) + [versionUrl]
  {
    SendPhaseOrder(urls, env.sendEnv, |urls|);
    BegunUrlsAppend(SendAllEffects(urls, env.sendEnv, |urls|), VersionCheckEffects(versionUrl, fw, env.versionReply));
    VersionCheckBegins(versionUrl, fw, env.versionReply);
  }

  /** No send flashes firmware or restarts the board. */
  lemma {:induction false} SendPhaseNeverRestarts(urls: seq<string>, sendEnv: nat -> SendEnv, n: nat)
    requires n <= |urls|
    ensures forall e :: e in SendAllEffects(urls, sendEnv, n) ==> !e.Restart? && !e.FlashFrom?
  {
    if n > 0 {
      SendPhaseNeverRestarts(urls, sendEnv, n - 1);
      SendNeverRestarts(urls[n - 1], sendEnv(n - 1));
    }
  }

  /**
   * Whatever the clock, the link and the servers answer, no modelled effect
   * of loop() is a flash or a restart: firmwareUpdate() is unreachable from
   * it. (The ArduinoOTA poll is one opaque effect; a local OTA upload it
   * serves is outside the model.)
   */
  lemma TickNeverRestarts(ssid: string, urls: seq<string>, versionUrl: string,
                          previousMillis: U32, fw: Firmware, env: TickEnv)
    ensures forall e :: e in TickEffects(ssid, urls, versionUrl, previousMillis, fw, env) ==>
                          !e.Restart? && !e.FlashFrom?
  {
    SendPhaseNeverRestarts(urls, env.sendEnv, |urls|);
    VersionCheckNeverRestarts(versionUrl, fw, env.versionReply);
  }

  class Esp32App {
    const wifi: WiFiManager
    const ota: OtaHandler
    const world: World
    const senders: seq<DataSender>
    const interval: int
    var previousMillis: U32
    var currentMillis: U32

    /** The endpoints of the senders, in index order. */
    function Urls(): (urls: seq<string>)
      ensures |urls| == |senders|
      ensures forall i :: 0 <= i < |senders| ==> urls[i] == senders[i].apiUrl
    {
      seq(|senders|, i requires 0 <= i < |senders| => senders[i].apiUrl)
    }

    /**
     * One sender per URL for the first `numUrls` entries, previousMillis at 0
     * and the interval at 60000 ms. The source leaves currentMillis
     * uninitialised; loop() writes it before reading it.
     */
    constructor (ssid: string, apiUrls: seq<string>, numUrls: int, ota: OtaHandler, world: World)
      requires 0 <= numUrls <= |apiUrls|
      ensures Urls() == apiUrls[..numUrls]
      ensures previousMillis == 0 && interval == INTERVAL
      ensures fresh(wifi) && wifi.ssid == ssid && wifi.connectionTimeout == CONNECTION_TIMEOUT
      ensures this.ota == ota && this.world == world
    {
      wifi := new WiFiManager(ssid, CONNECTION_TIMEOUT);
      var made: seq<DataSender> := [];
      for i := 0 to numUrls
        invariant |made| == i
        invariant forall j :: 0 <= j < i ==> made[j].apiUrl == apiUrls[j]
      {
        var sender := new DataSender(apiUrls[i]);
        made := made + [sender];
      }
      senders := made;
      this.ota := ota;
      this.world := world;
      previousMillis := 0;
      currentMillis := 0;
      interval := INTERVAL;
    }

    /** setup(): the blocking first join; the OTA listener and NTP set-up are not modelled. */
    method Setup(status: nat -> bool) returns (connected: bool)
      modifies wifi, world
      ensures 0 <= wifi.attempts <= Ceiling(wifi.connectionTimeout) + 1
      ensures forall i :: 0 <= i < wifi.attempts ==> !status(i)
      ensures wifi.attempts <= Ceiling(wifi.connectionTimeout) ==> status(wifi.attempts)
      ensures connected == status(Min(wifi.attempts, Ceiling(wifi.connectionTimeout)) + 1)
      ensures world.trace == old(world.trace) + [WifiBegin(wifi.ssid)]
                             + Waits(Min(wifi.attempts, Ceiling(wifi.connectionTimeout)))
                             + [Log(if connected then WifiConnected else ConnectionFailed)]
      ensures world.restarted == old(world.restarted)
    {
      connected := wifi.Connect(world, status);
    }

    /** The send loop of a firing: `send` once per index, in increasing order. */
    method SendAll(sendEnv: nat -> SendEnv)
      modifies world
      ensures world.trace == old(world.trace) + SendAllEffects(Urls(), sendEnv, |senders|)
      ensures world.restarted == old(world.restarted)
    {
      ghost var urls, start := Urls(), world.trace;
      for i := 0 to |senders|
        invariant world.trace == start + SendAllEffects(urls, sendEnv, i)
        invariant world.restarted == old(world.restarted)
      {
        ghost var sent := SendAllEffects(urls, sendEnv, i);
        senders[i].Send(world, sendEnv(i));
        SendAllStep(urls, sendEnv, i);
        AppendAssoc(start, sent, SendEffects(urls[i], sendEnv(i)));
      }
    }

    /**
     * loop(): previousMillis moves, to exactly `now`, only when the wrapped
     * elapsed time reaches the interval; the globals change only through the
     * version check of a firing; the HTTP update path never restarts the
     * board from here.
     */
    method Loop(env: TickEnv)
      requires interval == INTERVAL
      modifies this, ota, world
      ensures currentMillis == env.now
      ensures previousMillis == if Due(env.now, old(previousMillis)) then env.now else old(previousMillis)
      ensures ota.State() == if Due(env.now, old(previousMillis))
                             then CheckVersion(old(ota.State()), env.versionReply)
                             else old(ota.State())
      ensures world.trace == old(world.trace)
                             + TickEffects(wifi.ssid, Urls(), ota.versionUrl, old(previousMillis), old(ota.State()), env)
      ensures world.restarted == old(world.restarted)
    {
      ghost var start, fw := world.trace, ota.State();
      ghost var rejoin := ReconnectEffects(wifi.ssid, env.linkUp);
      wifi.ReconnectIfNeeded(world, env.linkUp);
      world.Emit(OtaPoll);
      currentMillis := env.now;
      if Elapsed(currentMillis, previousMillis) >= interval {
        previousMillis := currentMillis;
        SendAll(env.sendEnv);
        var updateAvailable := ota.FirmwareVersionCheck(world, env.versionReply);
        if updateAvailable != 0 {
          // src/main.cpp:187 calls firmwareUpdate() here. firmwareVersionCheck()
          // returns 0 on every path, so this branch is dead: the update is never flashed.
          assert false;
        }
        AppendAssoc5(start, rejoin, [OtaPoll], SendAllEffects(Urls(), env.sendEnv, |senders|),
                     VersionCheckEffects(ota.versionUrl, fw, env.versionReply));
      } else {
        AppendAssoc5(start, rejoin, [OtaPoll], [], []);
      }
    }
  }
}
