/**
 * The externally observable behaviour of the board: every call the firmware
 * makes into the WiFi driver, the HTTP client, the update library, the serial
 * log and the restart primitive is recorded as one Effect in a trace. The
 * radio, the network and the clock are not modelled; their answers are
 * parameters of the operations that consult them.
 */
module Board {

  /** The log lines the firmware prints, abstracted from their exact text. */
  datatype LogLine =
    | WifiConnected                  // "WiFi Connected!"
    | ConnectionFailed               // "Connection Failed!"
    | DataSent                       // "Data sent successfully"
    | RequestFailed(code: int)       // "HTTP Request failed. Error code: <code>"
    | NewFirmware(version: string)   // "New firmware detected: <payload>"
    | AlreadyLatest                  // "Already on the latest firmware"
    | StartingUpdate                 // "Starting firmware update..."
    | UpdateFailed(code: int, reason: string)  // "HTTP_UPDATE_FAILED Error (<code>): <reason>"
    | NoUpdates                      // "HTTP_UPDATE_NO_UPDATES: No update available"
    | UpdateOk                       // "HTTP_UPDATE_OK: Firmware updated successfully"

  datatype Effect =
    | WifiBegin(ssid: string)        // WiFi.begin(ssid)
    | WifiWait                       // delay(1000), Serial.print("."): one retry of connect()
    | OtaPoll                        // ArduinoOTA.handle()
    | HttpBegin(url: string)         // HTTPClient::begin
    | HttpHeader(name: string, value: string)
    | HttpPost(body: string)
    | HttpGet
    | HttpEnd
    | FlashFrom(url: string)         // httpUpdate.update(client, url)
    | Restart                        // ESP.restart()
    | Log(line: LogLine)

  /** The URLs passed to an HTTP client's begin() in `fx`, in order. */
  function BegunUrls(fx: seq<Effect>): seq<string> {
    if fx == [] then []
    else (if fx[0].HttpBegin? then [fx[0].url] else []) + BegunUrls(fx[1..])
  }

  lemma {:induction false} BegunUrlsAppend(a: seq<Effect>, b: seq<Effect>)
    ensures BegunUrls(a + b) == BegunUrls(a) + BegunUrls(b)
  {
    if a == [] {
      assert a + b == b;
    } else {
      assert (a + b)[0] == a[0];
      assert (a + b)[1..] == a[1..] + b;
      BegunUrlsAppend(a[1..], b);
    }
  }

  lemma {:induction false} NoBegins(fx: seq<Effect>)
    requires forall i :: 0 <= i < |fx| ==> !fx[i].HttpBegin?
    ensures BegunUrls(fx) == []
  {
    if fx != [] {
      assert forall i :: 0 <= i < |fx[1..]| ==> !fx[1..][i].HttpBegin?;
      NoBegins(fx[1..]);
    }
  }

  /** The board: the trace of what it has done, and whether it has restarted. */
  class World {
    var trace: seq<Effect>
    var restarted: bool

    constructor ()
      ensures trace == [] && !restarted
    {
      trace := [];
      restarted := false;
    }

    method Emit(e: Effect)
      requires !e.Restart?
      modifies this
      ensures trace == old(trace) + [e]
      ensures restarted == old(restarted)
    {
      trace := trace + [e];
    }

    /** ESP.restart(): the process ends; the flag is the terminal state. */
    method Restart()
      modifies this
      ensures trace == old(trace) + [Effect.Restart]
      ensures restarted
    {
      trace := trace + [Effect.Restart];
      restarted := true;
    }
  }
}
