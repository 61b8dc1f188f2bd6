/**
 * DataSender (src/DataSender.cpp): builds one JSON telemetry record from the
 * clock, two random draws and a label, and POSTs it to its endpoint.
 *
 * Two mismatches in the calling code are recorded here and resolved by the
 * evident intent: src/main.cpp:185 calls `dataSenders[i].send(i)` although
 * `send()` takes no parameter, and src/main.cpp:160 allocates
 * `new DataSender[numUrls]`, which needs a default constructor that
 * DataSender does not have. The model builds one sender per URL and calls
 * `Send` once per index.
 */
module Telemetry {
  import opened Wrappers
  import opened Board

  /** What getTimestamp() returns while the clock has not been synchronised. */
  const SENTINEL: string := "0000-00-00T00:00:00Z"

  /** The two category labels of a record. */
  datatype Label = Merdouille | CommoOn

  function LabelText(k: Label): (t: string)
    ensures t == "merdouille" || t == "commo on"
  {
    match k
    case Merdouille => "merdouille"
    case CommoOn => "commo on"
  }

  function LabelOf(t: string): (k: Option<Label>)
    ensures k.Some? ==> LabelText(k.value) == t
    ensures t == "merdouille" || t == "commo on" ==> k.Some?
  {
    if t == "merdouille" then Some(Merdouille)
    else if t == "commo on" then Some(CommoOn)
    else None
  }

  datatype Record = Record(timestamp: string, value: int, kind: Label)

  /**
   * getTimestamp(): the formatted local time when getLocalTime succeeds
   * (`localTime` is that formatted string, an oracle), the sentinel otherwise.
   */
  function Timestamp(localTime: Option<string>): (ts: string)
    ensures localTime.None? ==> ts == SENTINEL
    ensures localTime.Some? ==> ts == localTime.value
  {
    match localTime
    case None => SENTINEL
    case Some(formatted) => formatted
  }

  /**
   * Arduino's random(lo, hi): a value in [lo, hi) when lo < hi, lo otherwise.
   * The generator is not modelled; `draw` is its arbitrary raw output.
   */
  function Random(lo: int, hi: int, draw: nat): (r: int)
    ensures lo < hi ==> lo <= r < hi
    ensures hi <= lo ==> r == lo
  {
    if lo < hi then lo + draw % (hi - lo) else lo
  }

  /** The record generateRandomData() serialises. */
  function GenerateRecord(localTime: Option<string>, valueDraw: nat, labelDraw: nat): (r: Record)
    ensures 1 <= r.value <= 20
    ensures r.kind == (if Random(0, 2, labelDraw) == 0 then Merdouille else CommoOn)
    ensures localTime.None? ==> r.timestamp == SENTINEL
  {
    var randomValue := Random(1, 21, valueDraw);
    var kind := if Random(0, 2, labelDraw) == 0 then Merdouille else CommoOn;
    Record(Timestamp(localTime), randomValue, kind)
  }

  // ---------------------------------------------------------------------
  // Decimal text of an int, as Arduino's String(int) writes it.

  predicate IsDigit(c: char) {
    '0' <= c <= '9'
  }

  function DigitChar(d: nat): (c: char)
    requires d < 10
    ensures IsDigit(c)
  {
    "0123456789"[d]
  }

  function DigitValue(c: char): (d: nat)
    requires IsDigit(c)
    ensures d < 10 && DigitChar(d) == c
  {
    (c as int) - ('0' as int)
  }

  predicate AllDigits(s: string) {
    forall i :: 0 <= i < |s| ==> IsDigit(s[i])
  }

  function NatToDigits(n: nat): (s: string)
    ensures |s| > 0 && AllDigits(s)
  {
    if n < 10 then [DigitChar(n)] else NatToDigits(n / 10) + [DigitChar(n % 10)]
  }

  /** String(int): an optional '-' followed by the decimal digits. */
  function IntToString(n: int): (s: string)
    ensures |s| > 0
  {
    if n < 0 then "-" + NatToDigits(-n) else NatToDigits(n)
  }

  function DigitsToNat(s: string): nat
    requires AllDigits(s)
  {
    if s == [] then 0 else DigitsToNat(s[..|s| - 1]) * 10 + DigitValue(s[|s| - 1])
  }

  /** Reads back an integer token: an optional '-' and at least one digit. */
  function ParseInt(s: string): Option<int> {
    if |s| > 1 && s[0] == '-' && AllDigits(s[1..]) then Some(0 - DigitsToNat(s[1..]))
    else if |s| > 0 && AllDigits(s) then Some(DigitsToNat(s))
    else None
  }

  lemma {:induction false} DigitsRoundTrip(n: nat)
    ensures DigitsToNat(NatToDigits(n)) == n
  {
    if n >= 10 {
      var s := NatToDigits(n);
      assert s[..|s| - 1] == NatToDigits(n / 10);
      DigitsRoundTrip(n / 10);
    }
  }

  /** The decimal text of every int reads back as that int. */
  lemma IntToStringRoundTrip(n: int)
    ensures ParseInt(IntToString(n)) == Some(n)
  {
    var s := IntToString(n);
    if n < 0 {
      var digits := NatToDigits(-n);
      assert s[0] == '-' && s[1..] == digits;
      DigitsRoundTrip(-n);
      assert ParseInt(s) == Some(0 - DigitsToNat(digits));
    } else {
      var digits := NatToDigits(n);
      assert s == digits && IsDigit(s[0]) && s[0] != '-';
      DigitsRoundTrip(n);
      assert ParseInt(s) == Some(DigitsToNat(digits));
    }
  }

  /** The decimal text of an int holds no comma, so the comma after it delimits it. */
  lemma IntToStringHasNoComma(n: int)
    ensures ',' !in IntToString(n)
  {
    var digits := if n < 0 then NatToDigits(-n) else NatToDigits(n);
    assert IntToString(n) == (if n < 0 then "-" else "") + digits;
  }

  // ---------------------------------------------------------------------
  // The JSON object of one record (section 4 of RFC 8259).

  /** A character that may stand unescaped in a JSON string (section 7 of RFC 8259). */
  predicate Unescaped(c: char) {
    c != '"' && c != '\\' && c >= ' '
  }

  predicate PlainText(s: string) {
    forall i :: 0 <= i < |s| ==> Unescaped(s[i])
  }

  /**
   * The payload built by generateRandomData(): the timestamp and the label
   * as JSON strings, the value as an unquoted decimal number.
   */
  function Serialize(r: Record): string {
    var jsonData := "{\"timestamp\": \"" + r.timestamp + "\", ";
    var jsonData' := jsonData + "\"value\": " + IntToString(r.value) + ", ";
    jsonData' + "\"type\": \"" + LabelText(r.kind) + "\"}"
  }

  function GenerateRandomData(localTime: Option<string>, valueDraw: nat, labelDraw: nat): string {
    Serialize(GenerateRecord(localTime, valueDraw, labelDraw))
  }

  /** Splits before the first occurrence of `c`, which stays at the head of the rest. */
  function SpanUntil(s: string, c: char): (r: Option<(string, string)>)
    ensures r.Some? ==> c !in r.value.0 && |r.value.1| > 0 && r.value.1[0] == c
    ensures r.Some? ==> s == r.value.0 + r.value.1
    ensures r.None? ==> c !in s
  {
    if s == [] then None
    else if s[0] == c then Some(([], s))
    else match SpanUntil(s[1..], c)
      case None => None
      case Some(split) => Some(([s[0]] + split.0, split.1))
  }

  lemma {:induction false} SpanUntilFirst(t: string, rest: string, c: char)
    requires c !in t && |rest| > 0 && rest[0] == c
    ensures SpanUntil(t + rest, c) == Some((t, rest))
  {
    if t != [] {
      var s := t + rest;
      assert s[0] == t[0] && t[0] != c;
      assert s[1..] == t[1..] + rest;
      SpanUntilFirst(t[1..], rest, c);
      assert [t[0]] + t[1..] == t;
    } else {
      assert t + rest == rest;
    }
  }

  function StripPrefix(p: string, s: string): (r: Option<string>)
    ensures r.Some? <==> p <= s
    ensures r.Some? ==> s == p + r.value
  {
    if p <= s then Some(s[|p|..]) else None
  }

  lemma StripPrefixOf(p: string, t: string)
    ensures StripPrefix(p, p + t) == Some(t)
  {
    assert (p + t)[|p|..] == t;
  }

  /** Reads the content of a JSON string up to its closing quote; escapes are refused. */
  function ReadString(s: string): (r: Option<(string, string)>)
    ensures r.Some? ==> PlainText(r.value.0) && s == r.value.0 + r.value.1
    ensures r.Some? ==> |r.value.1| > 0 && r.value.1[0] == '"'
  {
    var split :- SpanUntil(s, '"');
    if PlainText(split.0) then Some(split) else None
  }

  /** Reads a payload back into the record it encodes, or None if it has another shape. */
  function ParsePayload(s: string): Option<Record> {
    var afterOpen :- StripPrefix("{\"timestamp\": \"", s);
    var ts :- ReadString(afterOpen);
    var afterTs :- StripPrefix("\", ", ts.1);
    var afterKey :- StripPrefix("\"value\": ", afterTs);
    var rest :- ParseValueAndType(afterKey);
    Some(Record(ts.0, rest.0, rest.1))
  }

  /** The part of a payload after `"value": `. */
  function ParseValueAndType(s: string): Option<(int, Label)> {
    var num :- SpanUntil(s, ',');
    var value :- ParseInt(num.0);
    var afterNum :- StripPrefix(", ", num.1);
    var kind :- ParseType(afterNum);
    Some((value, kind))
  }

  /** The part of a payload after the value: `"type": "<label>"}`. */
  function ParseType(s: string): Option<Label> {
    var afterType :- StripPrefix("\"type\": \"", s);
    var kindText :- ReadString(afterType);
    var kind :- LabelOf(kindText.0);
    if kindText.1 == "\"}" then Some(kind) else None
  }

  lemma Reassociate(a: string, b: string, c: string, d: string, e: string,
                    f: string, g: string, h: string, i: string)
    ensures a + b + c + d + e + f + g + h + i == a + (b + (c + (d + (e + (f + (g + (h + i)))))))
  {
  }

  lemma PlainHasNoQuote(t: string)
    requires PlainText(t)
    ensures '"' !in t
  {
  }

  lemma ParseTypeOf(kind: Label)
    ensures ParseType("\"type\": \"" + (LabelText(kind) + "\"}")) == Some(kind)
  {
    var kindText := LabelText(kind);
    StripPrefixOf("\"type\": \"", kindText + "\"}");
    assert PlainText(kindText);
    PlainHasNoQuote(kindText);
    SpanUntilFirst(kindText, "\"}", '"');
  }

  lemma ParseValueAndTypeOf(value: int, kind: Label)
    ensures ParseValueAndType(IntToString(value) + (", " + ("\"type\": \"" + (LabelText(kind) + "\"}"))))
            == Some((value, kind))
  {
    IntToStringRoundTrip(value);
    IntToStringHasNoComma(value);
    SpanUntilFirst(IntToString(value), ", " + ("\"type\": \"" + (LabelText(kind) + "\"}")), ',');
    StripPrefixOf(", ", "\"type\": \"" + (LabelText(kind) + "\"}"));
    ParseTypeOf(kind);
  }

  /**
   * Round trip: a record whose timestamp needs no JSON escape is recovered
   * exactly from its payload, so the three fields are unambiguous.
   */
  lemma {:induction false} SerializeRoundTrip(r: Record)
    requires PlainText(r.timestamp)
    ensures ParsePayload(Serialize(r)) == Some(r)
  {
    var ts, num, kindText := r.timestamp, IntToString(r.value), LabelText(r.kind);
    var rest3 := num + (", " + ("\"type\": \"" + (kindText + "\"}")));
    var rest1 := "\", " + ("\"value\": " + rest3);
    Reassociate("{\"timestamp\": \"", ts, "\", ", "\"value\": ", num, ", ", "\"type\": \"", kindText, "\"}");
    assert Serialize(r) == "{\"timestamp\": \"" + (ts + rest1);
    StripPrefixOf("{\"timestamp\": \"", ts + rest1);
    PlainHasNoQuote(ts);
    SpanUntilFirst(ts, rest1, '"');
    StripPrefixOf("\", ", "\"value\": " + rest3);
    StripPrefixOf("\"value\": ", rest3);
    ParseValueAndTypeOf(r.value, r.kind);
  }

  /** Two plain records with the same payload are the same record. */
  lemma SerializeInjective(a: Record, b: Record)
    requires PlainText(a.timestamp) && PlainText(b.timestamp)
    requires Serialize(a) == Serialize(b)
    ensures a == b
  {
    SerializeRoundTrip(a);
    SerializeRoundTrip(b);
  }

  /**
   * Every payload the sender can produce while the clock is unsynchronised,
   * or synchronised to a plain time string, reads back as a record with the
   * timestamp, a value in [1,20] and one of the two labels.
   */
  lemma GeneratedPayloadReadsBack(localTime: Option<string>, valueDraw: nat, labelDraw: nat)
    requires localTime.Some? ==> PlainText(localTime.value)
    ensures var r := ParsePayload(GenerateRandomData(localTime, valueDraw, labelDraw));
      && r.Some?
      && r.value.timestamp == Timestamp(localTime)
      && 1 <= r.value.value <= 20
      && LabelText(r.value.kind) in {"merdouille", "commo on"}
  {
    var rec := GenerateRecord(localTime, valueDraw, labelDraw);
    assert PlainText(SENTINEL);
    SerializeRoundTrip(rec);
  }

  // ---------------------------------------------------------------------
  // send()

  /**
   * What send() gets from the outside world: whether WiFi.status() reports
   * a connection, the formatted local time if getLocalTime succeeds, the raw
   * draws behind the two random() calls, and the code http.POST returns.
   */
  datatype SendEnv = SendEnv(connected: bool, localTime: Option<string>,
                             valueDraw: nat, labelDraw: nat, responseCode: int)

  /** The effects of one send() against `apiUrl`. */
  function SendEffects(apiUrl: string, env: SendEnv): seq<Effect> {
    if !env.connected then []
    else
      var jsonData := GenerateRandomData(env.localTime, env.valueDraw, env.labelDraw);
      var outcome := if env.responseCode > 0 then DataSent else RequestFailed(env.responseCode);
      [HttpBegin(apiUrl), HttpHeader("Content-Type", "application/json"), HttpPost(jsonData), Log(outcome), HttpEnd]
  }

  /**
   * send() does nothing at all while disconnected; when connected it calls begin()
   * with its URL, sets the JSON content type before the POST, ends the
   * request on the success and the failure branch alike, and reports
   * success exactly for a positive status code.
   */
  lemma SendEffectsShape(apiUrl: string, env: SendEnv)
    ensures var fx := SendEffects(apiUrl, env);
      && (fx == [] <==> !env.connected)
      && (env.connected ==>
            && |fx| == 5
            && fx[0] == HttpBegin(apiUrl)
            && fx[1] == HttpHeader("Content-Type", "application/json")
            && fx[2].HttpPost?
            && fx[4] == HttpEnd)
      && (Log(DataSent) in fx <==> env.connected && env.responseCode > 0)
  {
  }

  /** A connected send() calls begin() once, with its own URL; a disconnected one never does. */
  lemma SendBegins(apiUrl: string, env: SendEnv)
    ensures BegunUrls(SendEffects(apiUrl, env)) == if env.connected then [apiUrl] else []
  {
    if env.connected {
      var fx := SendEffects(apiUrl, env);
      assert fx[0] == HttpBegin(apiUrl);
      assert forall i :: 0 <= i < |fx[1..]| ==> !fx[1..][i].HttpBegin?;
      NoBegins(fx[1..]);
    }
  }

  /** send() never flashes firmware and never restarts the board. */
  lemma SendNeverRestarts(apiUrl: string, env: SendEnv)
    ensures forall e :: e in SendEffects(apiUrl, env) ==> !e.Restart? && !e.FlashFrom?
  {
  }

  /**
   * For a local time that needs no JSON escape, the body a connected send()
   * POSTs reads back as a well-formed record.
   */
  lemma SentBodyReadsBack(apiUrl: string, env: SendEnv)
    requires env.connected
    requires env.localTime.Some? ==> PlainText(env.localTime.value)
    ensures var r := ParsePayload(SendEffects(apiUrl, env)[2].body);
      && r.Some?
      && r.value.timestamp == Timestamp(env.localTime)
      && 1 <= r.value.value <= 20
  {
    GeneratedPayloadReadsBack(env.localTime, env.valueDraw, env.labelDraw);
  }

  class DataSender {
    const apiUrl: string

    constructor (apiUrl: string)
      ensures this.apiUrl == apiUrl
    {
      this.apiUrl := apiUrl;
    }

    /**
     * send(): returns at once when not connected; otherwise POSTs a fresh
     * payload with a JSON content type, logs success for any positive status
     * (4xx and 5xx included) and failure otherwise, and ends the request on
     * both branches.
     */
    method Send(world: World, env: SendEnv)
      modifies world
      ensures world.trace == old(world.trace) + SendEffects(apiUrl, env)
      ensures world.restarted == old(world.restarted)
    {
      if !env.connected {
        return;
      }
      var jsonData := GenerateRandomData(env.localTime, env.valueDraw, env.labelDraw);
      world.Emit(HttpBegin(apiUrl));
      world.Emit(HttpHeader("Content-Type", "application/json"));
      world.Emit(HttpPost(jsonData));
      var httpResponseCode := env.responseCode;
      if httpResponseCode > 0 {
        world.Emit(Log(DataSent));
      } else {
        world.Emit(Log(RequestFailed(httpResponseCode)));
      }
      world.Emit(HttpEnd);
    }
  }
}
