/**
 * OTAHandler (src/main.cpp:72-139) and the two globals it rewrites,
 * `FirmwareVer` (the firmware version the device believes it runs) and
 * `payload` (the last version string read from the server). The version
 * check is a state transition driven by the HTTP status and the trimmed
 * body; the update is a three-way outcome of which only success restarts.
 */
module Ota {
  import opened Board

  /** HTTP 200 OK (section 15.3.1 of RFC 9110). */
  const HTTP_CODE_OK: int := 200

  // ---------------------------------------------------------------------
  // String::trim(): strip leading and trailing isspace() characters.

  /** isspace() in the C locale. */
  predicate IsSpace(c: char) {
    c == ' ' || c == '\t' || c == '\n' || c == '\U{0B}' || c == '\U{0C}' || c == '\r'
  }

  function TrimStart(s: string): (r: string)
    ensures |r| <= |s| && r == s[|s| - |r|..]
    ensures r == [] || !IsSpace(r[0])
    ensures forall i :: 0 <= i < |s| - |r| ==> IsSpace(s[i])
  {
    if s != [] && IsSpace(s[0]) then
      var r := TrimStart(s[1..]);
      assert forall i :: 1 <= i < |s| - |r| ==> s[i] == s[1..][i - 1];
      r
    else s
  }

  function TrimEnd(s: string): (r: string)
    ensures |r| <= |s| && r == s[..|r|]
    ensures r == [] || !IsSpace(r[|r| - 1])
    ensures forall i :: |r| <= i < |s| ==> IsSpace(s[i])
  {
    if s != [] && IsSpace(s[|s| - 1]) then
      var r := TrimEnd(s[..|s| - 1]);
      assert forall i :: |r| <= i < |s| - 1 ==> s[i] == s[..|s| - 1][i];
      r
    else s
  }

  /** String::trim(): the result has no whitespace at either end. */
  function Trim(s: string): (r: string)
    ensures |r| <= |s|
    ensures r == [] || (!IsSpace(r[0]) && !IsSpace(r[|r| - 1]))
  {
    TrimEnd(TrimStart(s))
  }

  /**
   * The trimmed string is a slice of the original, and everything cut from
   * either end is whitespace.
   */
  lemma TrimIsSlice(s: string)
    ensures var r, lo := Trim(s), |s| - |TrimStart(s)|;
      && lo + |r| <= |s|
      && r == s[lo..lo + |r|]
      && (forall i :: 0 <= i < lo ==> IsSpace(s[i]))
      && (forall i :: lo + |r| <= i < |s| ==> IsSpace(s[i]))
  {
  }

  lemma {:induction false} TrimStartOfTrimmed(s: string)
    requires s == [] || !IsSpace(s[0])
    ensures TrimStart(s) == s
  {
  }

  lemma {:induction false} TrimEndOfTrimmed(s: string)
    requires s == [] || !IsSpace(s[|s| - 1])
    ensures TrimEnd(s) == s
  {
  }

  /** Trimming twice is trimming once. */
  lemma TrimIdempotent(s: string)
    ensures Trim(Trim(s)) == Trim(s)
  {
    var r := Trim(s);
    TrimStartOfTrimmed(r);
    TrimEndOfTrimmed(r);
  }

  // ---------------------------------------------------------------------
  // firmwareVersionCheck() and handleUpdate()

  /** The globals `FirmwareVer` and `payload`. */
  datatype Firmware = Firmware(version: string, payload: string)

  /**
   * What the version endpoint does: https.begin() refuses the URL, or the
   * GET returns a status code and a body.
   */
  datatype VersionReply = BeginFailed | Reply(code: int, body: string)

  predicate Succeeded(reply: VersionReply) {
    reply.Reply? && reply.code == HTTP_CODE_OK
  }

  /**
   * The option firmwareVersionCheck() passes to handleUpdate(): 0 when the
   * trimmed body equals the cached version, 1 otherwise; none on failure.
   */
  function UpdateOption(fw: Firmware, reply: VersionReply): (option: int)
    requires Succeeded(reply)
    ensures option == 0 <==> Trim(reply.body) == fw.version
    ensures option == 0 || option == 1
  {
    if Trim(reply.body) == fw.version then 0 else 1
  }

  /** The globals after firmwareVersionCheck(). */
  function CheckVersion(fw: Firmware, reply: VersionReply): (fw': Firmware)
    ensures !Succeeded(reply) ==> fw' == fw
    ensures Succeeded(reply) ==> fw'.payload == Trim(reply.body)
    ensures Succeeded(reply) && UpdateOption(fw, reply) == 0 ==> fw'.version == fw.version
    ensures Succeeded(reply) && UpdateOption(fw, reply) == 1 ==> fw'.version == Trim(reply.body) != fw.version
  {
    if !Succeeded(reply) then fw
    else
      var payload := Trim(reply.body);
      if payload == fw.version then Firmware(fw.version, payload) else Firmware(payload, payload)
  }

  /** handleUpdate(option): its log line, given the global payload. */
  function HandleUpdateLog(option: int, payload: string): LogLine {
    if option == 1 then NewFirmware(payload) else AlreadyLatest
  }

  /** The effects of firmwareVersionCheck() against `versionUrl`. */
  function VersionCheckEffects(versionUrl: string, fw: Firmware, reply: VersionReply): seq<Effect> {
    match reply
    case BeginFailed => [HttpBegin(versionUrl)]
    case Reply(code, body) =>
      if code != HTTP_CODE_OK then [HttpBegin(versionUrl), HttpGet]
      else
        var option := UpdateOption(fw, reply);
        [HttpBegin(versionUrl), HttpGet, HttpEnd, Log(HandleUpdateLog(option, Trim(body)))]
  }

  /** The outcome of a check that got a 200 reply, and the line it logs. */
  lemma SucceededCheck(versionUrl: string, fw: Firmware, reply: VersionReply) returns (line: LogLine)
    requires Succeeded(reply)
    ensures line == HandleUpdateLog(if Trim(reply.body) == fw.version then 0 else 1, Trim(reply.body))
    ensures VersionCheckEffects(versionUrl, fw, reply) == [HttpBegin(versionUrl), HttpGet, HttpEnd, Log(line)]
    ensures CheckVersion(fw, reply)
            == if Trim(reply.body) == fw.version then Firmware(fw.version, Trim(reply.body))
               else Firmware(Trim(reply.body), Trim(reply.body))
  {
    line := HandleUpdateLog(UpdateOption(fw, reply), Trim(reply.body));
  }

  /**
   * The version check calls https.begin() exactly once, with the version URL,
   * whatever the reply; when begin() fails no request exists, but the call is made.
   */
  lemma VersionCheckBegins(versionUrl: string, fw: Firmware, reply: VersionReply)
    ensures BegunUrls(VersionCheckEffects(versionUrl, fw, reply)) == [versionUrl]
  {
    var fx := VersionCheckEffects(versionUrl, fw, reply);
    assert fx[0] == HttpBegin(versionUrl);
    assert forall i :: 0 <= i < |fx[1..]| ==> !fx[1..][i].HttpBegin?;
    NoBegins(fx[1..]);
  }

  /** The version check never flashes firmware and never restarts the board. */
  lemma VersionCheckNeverRestarts(versionUrl: string, fw: Firmware, reply: VersionReply)
    ensures forall e :: e in VersionCheckEffects(versionUrl, fw, reply) ==> !e.Restart? && !e.FlashFrom?
  {
  }

  /** A failed begin or a status other than 200 changes nothing and logs nothing. */
  lemma FailedCheckChangesNothing(versionUrl: string, fw: Firmware, reply: VersionReply)
    requires !Succeeded(reply)
    ensures CheckVersion(fw, reply) == fw
    ensures forall e :: e in VersionCheckEffects(versionUrl, fw, reply) ==> !e.Log?
  {
  }

  /**
   * A 200 reply whose trimmed body is the cached version keeps the version
   * and reports "already on the latest firmware".
   */
  lemma SameVersionIsKept(versionUrl: string, fw: Firmware, reply: VersionReply)
    requires Succeeded(reply) && Trim(reply.body) == fw.version
    ensures CheckVersion(fw, reply).version == fw.version
    ensures Log(AlreadyLatest) in VersionCheckEffects(versionUrl, fw, reply)
  {
  }

  /**
   * A 200 reply with another trimmed body adopts it as the version and
   * reports it as new firmware.
   */
  lemma NewVersionIsAdopted(versionUrl: string, fw: Firmware, reply: VersionReply)
    requires Succeeded(reply) && Trim(reply.body) != fw.version
    ensures CheckVersion(fw, reply).version == Trim(reply.body)
    ensures Log(NewFirmware(Trim(reply.body))) in VersionCheckEffects(versionUrl, fw, reply)
  {
  }

  /**
   * Repeating the check with the same reply is a no-op on the globals, and
   * after a successful check the repetition reports "already latest".
   */
  lemma RepeatedCheckIsNoOp(versionUrl: string, fw: Firmware, reply: VersionReply)
    ensures CheckVersion(CheckVersion(fw, reply), reply) == CheckVersion(fw, reply)
    ensures Succeeded(reply) ==>
      Log(AlreadyLatest) in VersionCheckEffects(versionUrl, CheckVersion(fw, reply), reply)
  {
  }

  // ---------------------------------------------------------------------
  // firmwareUpdate()

  /** The three results of httpUpdate.update(). */
  datatype UpdateResult =
    | HttpUpdateFailed(error: int, reason: string)
    | HttpUpdateNoUpdates
    | HttpUpdateOk

  function UpdateEffects(binUrl: string, result: UpdateResult): (fx: seq<Effect>)
    ensures Effect.Restart in fx <==> result.HttpUpdateOk?
    ensures |fx| > 1 && fx[0] == Log(StartingUpdate) && fx[1] == FlashFrom(binUrl)
  {
    match result
    case HttpUpdateFailed(error, reason) => [Log(StartingUpdate), FlashFrom(binUrl), Log(UpdateFailed(error, reason))]
    case HttpUpdateNoUpdates => [Log(StartingUpdate), FlashFrom(binUrl), Log(NoUpdates)]
    case HttpUpdateOk => [Log(StartingUpdate), FlashFrom(binUrl), Log(UpdateOk), Effect.Restart]
  }

  class OtaHandler {
    var firmwareVer: string
    var payload: string
    const versionUrl: string   // URL_fw_Version
    const binUrl: string       // URL_fw_Bin

    /** The globals' initial values and the two URLs come from the build configuration. */
    constructor (firmwareVer: string, payload: string, versionUrl: string, binUrl: string)
      ensures this.firmwareVer == firmwareVer && this.payload == payload
      ensures this.versionUrl == versionUrl && this.binUrl == binUrl
    {
      this.firmwareVer := firmwareVer;
      this.payload := payload;
      this.versionUrl := versionUrl;
      this.binUrl := binUrl;
    }

    function State(): Firmware
      reads this
    {
      Firmware(firmwareVer, payload)
    }

    /** handleUpdate(option): logs the decision and hands the option back. */
    method HandleUpdate(world: World, option: int) returns (r: int)
      modifies world
      ensures r == option
      ensures world.trace == old(world.trace) + [Log(HandleUpdateLog(option, payload))]
      ensures world.restarted == old(world.restarted)
    {
      world.Emit(Log(HandleUpdateLog(option, payload)));
      r := option;
    }

    /**
     * The 200 branch of firmwareVersionCheck() once the body is trimmed:
     * store it in `payload`, end the request, adopt it as `FirmwareVer` when
     * it differs, and report through handleUpdate().
     */
    method AdoptReply(world: World, trimmed: string)
      modifies this, world
      ensures payload == trimmed
      ensures firmwareVer == trimmed
      ensures world.trace == old(world.trace)
                             + [HttpEnd, Log(if trimmed == old(firmwareVer) then AlreadyLatest else NewFirmware(trimmed))]
      ensures world.restarted == old(world.restarted)
    {
      payload := trimmed;
      world.Emit(HttpEnd);
      if payload == firmwareVer {
        var _ := HandleUpdate(world, 0);
      } else {
        firmwareVer := payload;
        var _ := HandleUpdate(world, 1);
      }
    }

    /**
     * firmwareVersionCheck(): GET the version endpoint; on anything but 200
     * return at once; otherwise store the trimmed body in `payload`, adopt it
     * as `FirmwareVer` when it differs, and report through handleUpdate().
     * Every path returns 0.
     */
    method FirmwareVersionCheck(world: World, reply: VersionReply) returns (r: int)
      modifies this, world
      ensures r == 0
      ensures State() == CheckVersion(old(State()), reply)
      ensures world.trace == old(world.trace) + VersionCheckEffects(versionUrl, old(State()), reply)
      ensures world.restarted == old(world.restarted)
    {
      ghost var before, start := State(), world.trace;
      world.Emit(HttpBegin(versionUrl));
      if reply.Reply? {
        world.Emit(HttpGet);
        ghost var asked := world.trace;
        assert asked == start + [HttpBegin(versionUrl), HttpGet];
        var httpCode := reply.code;
        if httpCode != HTTP_CODE_OK {
          assert VersionCheckEffects(versionUrl, before, reply) == [HttpBegin(versionUrl), HttpGet];
          assert State() == CheckVersion(before, reply);
          return 0;
        }
        ghost var line := SucceededCheck(versionUrl, before, reply);
        var trimmed := Trim(reply.body);
        AdoptReply(world, trimmed);
        assert State() == CheckVersion(before, reply);
        assert [HttpBegin(versionUrl), HttpGet] + [HttpEnd, Log(line)] == VersionCheckEffects(versionUrl, before, reply);
        assert world.trace == start + ([HttpBegin(versionUrl), HttpGet] + [HttpEnd, Log(line)]);
      } else {
        assert VersionCheckEffects(versionUrl, before, reply) == [HttpBegin(versionUrl)];
      }
      return 0;
    }

    /**
     * firmwareUpdate(): announce the update, fetch and flash the binary, log
     * the outcome, and restart on success only. The globals are left as they are.
     */
    method FirmwareUpdate(world: World, result: UpdateResult)
      modifies world
      ensures world.trace == old(world.trace) + UpdateEffects(binUrl, result)
      ensures world.restarted == (old(world.restarted) || result.HttpUpdateOk?)
    {
      world.Emit(Log(StartingUpdate));
      world.Emit(FlashFrom(binUrl));
      match result {
        case HttpUpdateFailed(error, reason) =>
          world.Emit(Log(UpdateFailed(error, reason)));
        case HttpUpdateNoUpdates =>
          world.Emit(Log(NoUpdates));
        case HttpUpdateOk =>
          world.Emit(Log(UpdateOk));
          world.Restart();
      }
    }
  }
}
