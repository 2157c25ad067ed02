/** The signalling vocabulary: message type names, the message record, the
    TakeOver record and the text the client puts on the wire for them.

    The type names are the closed set SoftPhoneWebSocket compares against:
    the eleven static fields of src/audio/WebSocketMessageType.ts (HoldForHuman
    is declared there twice) plus TakeOver, AgentTakeOver and ConnectionHealth,
    which the dispatcher uses but that file does not declare. */
module Messages {

  datatype Option<T> = None | Some(value: T)

  datatype MessageType =
    | InboundAudio | OutboundAudio | Transcript | HoldForHuman | TranscriptEventDetection
    | SynthesizeSpeech | SynthesizeTouchTone | Hangup | Participants | RemoveParticipant
    | TakeOver | AgentTakeOver | ConnectionHealth

  /** The wire name of a message type. */
  function Name(t: MessageType): string
  {
    match t
    case InboundAudio => "InboundAudio"
    case OutboundAudio => "OutboundAudio"
    case Transcript => "Transcript"
    case HoldForHuman => "HoldForHuman"
    case TranscriptEventDetection => "TranscriptEventDetection"
    case SynthesizeSpeech => "SynthesizeSpeech"
    case SynthesizeTouchTone => "SynthesizeTouchTone"
    case Hangup => "Hangup"
    case Participants => "Participants"
    case RemoveParticipant => "RemoveParticipant"
    case TakeOver => "TakeOver"
    case AgentTakeOver => "AgentTakeOver"
    case ConnectionHealth => "ConnectionHealth"
  }

  /** The message type a wire name denotes, if any. */
  function ParseType(s: string): Option<MessageType>
  {
    if s == "InboundAudio" then Some(InboundAudio)
    else if s == "OutboundAudio" then Some(OutboundAudio)
    else if s == "Transcript" then Some(Transcript)
    else if s == "HoldForHuman" then Some(HoldForHuman)
    else if s == "TranscriptEventDetection" then Some(TranscriptEventDetection)
    else if s == "SynthesizeSpeech" then Some(SynthesizeSpeech)
    else if s == "SynthesizeTouchTone" then Some(SynthesizeTouchTone)
    else if s == "Hangup" then Some(Hangup)
    else if s == "Participants" then Some(Participants)
    else if s == "RemoveParticipant" then Some(RemoveParticipant)
    else if s == "TakeOver" then Some(TakeOver)
    else if s == "AgentTakeOver" then Some(AgentTakeOver)
    else if s == "ConnectionHealth" then Some(ConnectionHealth)
    else None
  }

  /** A string parses to t exactly when it is t's wire name, so distinct types
      have distinct names. */
  lemma ParseTypeIsInverse(s: string, t: MessageType)
    ensures ParseType(s) == Some(t) <==> s == Name(t)
  {
    NameParses(t);
    ParsedIsName(s);
  }

  lemma NameParses(t: MessageType)
    ensures ParseType(Name(t)) == Some(t)
  {
    if t.InboundAudio? || t.OutboundAudio? || t.Transcript? || t.HoldForHuman? || t.TranscriptEventDetection? || t.SynthesizeSpeech? {
      AudioNameParses(t);
    } else {
      CommandNameParses(t);
    }
  }

  lemma AudioNameParses(t: MessageType)
    requires t.InboundAudio? || t.OutboundAudio? || t.Transcript? || t.HoldForHuman? || t.TranscriptEventDetection? || t.SynthesizeSpeech?
    ensures ParseType(Name(t)) == Some(t)
  {
    match t
    case InboundAudio =>
    case OutboundAudio =>
    case Transcript =>
    case HoldForHuman =>
    case TranscriptEventDetection =>
    case SynthesizeSpeech =>
  }

  lemma CommandNameParses(t: MessageType)
    requires !(t.InboundAudio? || t.OutboundAudio? || t.Transcript? || t.HoldForHuman? || t.TranscriptEventDetection? || t.SynthesizeSpeech?)
    ensures ParseType(Name(t)) == Some(t)
  {
    if t.SynthesizeTouchTone? || t.Hangup? || t.Participants? || t.RemoveParticipant? {
      CallNameParses(t);
    } else {
      TakeOverNameParses(t);
    }
  }

  lemma CallNameParses(t: MessageType)
    requires t.SynthesizeTouchTone? || t.Hangup? || t.Participants? || t.RemoveParticipant?
    ensures ParseType(Name(t)) == Some(t)
  {
    match t
    case SynthesizeTouchTone =>
    case Hangup =>
    case Participants =>
    case RemoveParticipant =>
  }

  lemma TakeOverNameParses(t: MessageType)
    requires t.TakeOver? || t.AgentTakeOver? || t.ConnectionHealth?
    ensures ParseType(Name(t)) == Some(t)
  {
    match t
    case TakeOver =>
    case AgentTakeOver =>
    case ConnectionHealth =>
  }

  lemma ParsedIsName(s: string)
    ensures ParseType(s).Some? ==> s == Name(ParseType(s).value)
  {
    if s == "InboundAudio" {
    } else if s == "OutboundAudio" {
    } else if s == "Transcript" {
    } else if s == "HoldForHuman" {
    } else if s == "TranscriptEventDetection" {
    } else if s == "SynthesizeSpeech" {
    } else if s == "SynthesizeTouchTone" {
    } else if s == "Hangup" {
    } else if s == "Participants" {
    } else if s == "RemoveParticipant" {
    } else if s == "TakeOver" {
    } else if s == "AgentTakeOver" {
    } else if s == "ConnectionHealth" {
    }
  }

  lemma NamesDiffer()
    ensures forall t1, t2 :: Name(t1) == Name(t2) ==> t1 == t2
  {
    forall t1, t2 | Name(t1) == Name(t2) ensures t1 == t2 {
      NameParses(t1);
      NameParses(t2);
    }
  }

  /** IWebSocketMessage: every field but the type may be null; utcNow may be absent. */
  datatype Message = Message(
    messageType: string,
    payload: Option<string>,
    sequenceNumber: Option<int>,
    participantId: Option<string>,
    participantType: Option<string>,
    utcNow: Option<string>)

  /** JavaScript truthiness of a `string | null` field. */
  predicate Truthy(s: Option<string>)
  {
    s.Some? && s.value != ""
  }

  /** A command built by the client: fixed sequence number 0, null participant fields. */
  function Command(t: MessageType, payload: Option<string>): (m: Message)
    ensures m.messageType == Name(t) && m.payload == payload
    ensures m.sequenceNumber == Some(0) && m.participantId == None && m.participantType == None
    ensures m.utcNow == None
  {
    Message(Name(t), payload, Some(0), None, None, None)
  }

  // ---------------------------------------------------------------------------
  // TakeOver

  /** TakeOverTypeEnum */
  datatype TakeOverKind = NoneKind | Browser | Dialed

  /** ITakeOver */
  datatype TakeOverInfo = TakeOverInfo(kind: TakeOverKind, phoneNumber: Option<string>)

  const NoTakeOver: TakeOverInfo := TakeOverInfo(NoneKind, None)
  const BrowserTakeOver: TakeOverInfo := TakeOverInfo(Browser, None)

  function KindName(k: TakeOverKind): string
  {
    match k
    case NoneKind => "none"
    case Browser => "browser"
    case Dialed => "dialed"
  }

  /** `JSON.stringify` of an ITakeOver whose keys were created type first. */
  function TakeOverJson(t: TakeOverInfo): string
  {
    "{\"type\":\"" + KindName(t.kind) + "\",\"phoneNumber\":" + PhoneNumberJson(t.phoneNumber) + "}"
  }

  /** The `phoneNumber` value: `null` or a JSON string. */
  function PhoneNumberJson(phoneNumber: Option<string>): string
  {
    match phoneNumber
    case None => "null"
    case Some(p) => QuoteJson(p)
  }

  /** The payload `agentTakeOver` sends by default. */
  lemma BrowserTakeOverJson()
    ensures TakeOverJson(BrowserTakeOver) == "{\"type\":\"browser\",\"phoneNumber\":null}"
  {
  }

  // ---------------------------------------------------------------------------
  // JSON strings

  function HexDigit(n: int): char
    requires 0 <= n < 16
  {
    "0123456789abcdef"[n]
  }

  /** How JSON.stringify writes one character of a string. */
  function EscapeChar(c: char): string
  {
    if c == '"' then "\\\""
    else if c == '\\' then "\\\\"
    else if c as int == 0x08 then "\\b"
    else if c == '\t' then "\\t"
    else if c == '\n' then "\\n"
    else if c as int == 0x0C then "\\f"
    else if c == '\r' then "\\r"
    else if c as int < 0x20 then "\\u00" + [HexDigit(c as int / 16), HexDigit(c as int % 16)]
    else [c]
  }

  function EscapeJson(s: string): string
  {
    if |s| == 0 then "" else EscapeChar(s[0]) + EscapeJson(s[1..])
  }

  function QuoteJson(s: string): string
  {
    "\"" + EscapeJson(s) + "\""
  }

  function HexValue(c: char): (r: Option<int>)
    ensures r.Some? ==> 0 <= r.value < 16
  {
    if '0' <= c <= '9' then Some(c as int - '0' as int)
    else if 'a' <= c <= 'f' then Some(c as int - 'a' as int + 10)
    else if 'A' <= c <= 'F' then Some(c as int - 'A' as int + 10)
    else None
  }

  /** The value of four hex digits. */
  function Hex4(s: string): (r: Option<int>)
    requires |s| == 4
    ensures r.Some? ==> 0 <= r.value < 0x10000
  {
    match (HexValue(s[0]), HexValue(s[1]), HexValue(s[2]), HexValue(s[3]))
    case (Some(a), Some(b), Some(c), Some(d)) => Some(4096 * a + 256 * b + 16 * c + d)
    case _ => None
  }

  function Prepend(c: char, r: Option<(string, string)>): Option<(string, string)>
  {
    match r
    case None => None
    case Some((v, rest)) => Some(([c] + v, rest))
  }

  /** Reads the body of a JSON string up to its closing quote: the decoded text
      and what follows the quote.  Surrogate-pair escapes are not decoded. */
  function ReadString(s: string): Option<(string, string)>
    decreases |s|
  {
    if |s| == 0 then None
    else if s[0] == '"' then Some(("", s[1..]))
    else if s[0] == '\\' then
      if |s| < 2 then None
      else match Unescape(s)
        case Some((c, n)) => Prepend(c, ReadString(s[n..]))
        case None => None
    else if s[0] as int < 0x20 then None
    else Prepend(s[0], ReadString(s[1..]))
  }

  /** The character an escape sequence at the start of s stands for, and the
      length of the sequence. */
  function Unescape(s: string): (r: Option<(char, nat)>)
    requires |s| >= 2
    ensures r.Some? ==> 2 <= r.value.1 <= |s|
  {
    if s[1] == '"' || s[1] == '\\' || s[1] == '/' then Some((s[1], 2))
    else if s[1] == 'b' then Some((0x08 as char, 2))
    else if s[1] == 't' then Some(('\t', 2))
    else if s[1] == 'n' then Some(('\n', 2))
    else if s[1] == 'f' then Some((0x0C as char, 2))
    else if s[1] == 'r' then Some(('\r', 2))
    else if s[1] == 'u' && |s| >= 6 then
      match Hex4(s[2..6])
      case Some(v) => if v < 0xD800 || 0xE000 <= v then Some((v as char, 6)) else None
      case None => None
    else None
  }

  /** Reading back one escaped character. */
  lemma ReadEscapedChar(c: char, tail: string)
    ensures ReadString(EscapeChar(c) + tail) == Prepend(c, ReadString(tail))
  {
    if c == '"' || c == '\\' || c as int == 0x08 || c == '\t' || c == '\n' || c as int == 0x0C || c == '\r' {
      ReadShortEscape(c, tail);
    } else if c as int < 0x20 {
      ReadUnicodeEscape(c, tail);
    } else {
      assert (EscapeChar(c) + tail)[1..] == tail;
    }
  }

  lemma ReadShortEscape(c: char, tail: string)
    requires c == '"' || c == '\\' || c as int == 0x08 || c == '\t' || c == '\n' || c as int == 0x0C || c == '\r'
    ensures ReadString(EscapeChar(c) + tail) == Prepend(c, ReadString(tail))
  {
    var s := EscapeChar(c) + tail;
    assert s[2..] == tail;
    assert Unescape(s) == Some((c, 2));
  }

  lemma ReadUnicodeEscape(c: char, tail: string)
    requires c as int < 0x20
    requires !(c as int == 0x08 || c == '\t' || c == '\n' || c as int == 0x0C || c == '\r')
    ensures ReadString(EscapeChar(c) + tail) == Prepend(c, ReadString(tail))
  {
    var hex := [HexDigit(c as int / 16), HexDigit(c as int % 16)];
    var s := EscapeChar(c) + tail;
    assert s == "\\u00" + hex + tail;
    assert s[2..6] == "00" + hex;
    assert s[6..] == tail;
    HexDigitValue(c as int / 16);
    HexDigitValue(c as int % 16);
    assert Hex4(s[2..6]) == Some(c as int);
    assert (c as int) as char == c;
    assert Unescape(s) == Some((c, 6));
  }

  lemma HexDigitValue(n: int)
    requires 0 <= n < 16
    ensures HexValue(HexDigit(n)) == Some(n)
  {
  }

  /** JSON strings round-trip: reading the escaped text of s up to the closing
      quote gives s back, and the text after it. */
  lemma {:induction false} ReadStringRoundTrip(s: string, rest: string)
    ensures ReadString(EscapeJson(s) + "\"" + rest) == Some((s, rest))
  {
    if |s| == 0 {
      assert EscapeJson(s) + "\"" + rest == "\"" + rest;
    } else {
      var tail := EscapeJson(s[1..]) + "\"" + rest;
      assert EscapeJson(s) + "\"" + rest == EscapeChar(s[0]) + tail;
      ReadEscapedChar(s[0], tail);
      ReadStringRoundTrip(s[1..], rest);
      assert [s[0]] + s[1..] == s;
    }
  }

  function StartsWith(s: string, prefix: string): bool
  {
    |prefix| <= |s| && s[..|prefix|] == prefix
  }

  function ParseKind(s: string): Option<(TakeOverKind, string)>
  {
    if StartsWith(s, "none") then Some((NoneKind, s[4..]))
    else if StartsWith(s, "browser") then Some((Browser, s[7..]))
    else if StartsWith(s, "dialed") then Some((Dialed, s[6..]))
    else None
  }

  /** JSON.parse restricted to the text TakeOverJson produces. */
  function ParseTakeOverJson(s: string): Option<TakeOverInfo>
  {
    var open := "{\"type\":\"";
    var middle := "\",\"phoneNumber\":";
    if !StartsWith(s, open) then None
    else match ParseKind(s[|open|..])
      case None => None
      case Some((kind, r)) =>
        if !StartsWith(r, middle) then None
        else match ParsePhoneNumber(r[|middle|..])
          case Some(phoneNumber) => Some(TakeOverInfo(kind, phoneNumber))
          case None => None
  }

  /** The `phoneNumber` value followed by the closing brace, and nothing after it. */
  function ParsePhoneNumber(value: string): Option<Option<string>>
  {
    if value == "null}" then Some(None)
    else if |value| > 0 && value[0] == '"' then
      match ReadString(value[1..])
      case Some((p, after)) => if after == "}" then Some(Some(p)) else None
      case None => None
    else None
  }

  /** The phone number's text, closed by a brace, parses back to it. */
  lemma PhoneNumberRoundTrip(phoneNumber: Option<string>)
    ensures ParsePhoneNumber(PhoneNumberJson(phoneNumber) + "}") == Some(phoneNumber)
  {
    match phoneNumber {
      case None =>
      case Some(p) =>
        var quoted := PhoneNumberJson(phoneNumber) + "}";
        assert quoted == "\"" + (EscapeJson(p) + "\"" + "}");
        assert quoted[0] == '"' && quoted != "null}";
        assert quoted[1..] == EscapeJson(p) + "\"" + "}";
        ReadStringRoundTrip(p, "}");
    }
  }

  /** What agentTakeOver sends parses back to the TakeOver it was built from. */
  lemma TakeOverJsonRoundTrip(t: TakeOverInfo)
    ensures ParseTakeOverJson(TakeOverJson(t)) == Some(t)
  {
    var open := "{\"type\":\"";
    var middle := "\",\"phoneNumber\":";
    var value := PhoneNumberJson(t.phoneNumber) + "}";
    assert TakeOverJson(t) == open + (KindName(t.kind) + (middle + value));
    TakeOverFields(t.kind, value, TakeOverJson(t));
    PhoneNumberRoundTrip(t.phoneNumber);
  }

  /** The text of a takeover splits into its kind and its `phoneNumber` value. */
  lemma TakeOverFields(kind: TakeOverKind, value: string, s: string)
    requires s == "{\"type\":\"" + (KindName(kind) + ("\",\"phoneNumber\":" + value))
    ensures ParseTakeOverJson(s) == match ParsePhoneNumber(value)
      case Some(phoneNumber) => Some(TakeOverInfo(kind, phoneNumber))
      case None => None
  {
    var open := "{\"type\":\"";
    var middle := "\",\"phoneNumber\":";
    SkipPrefix(open, KindName(kind) + (middle + value));
    ParseKindName(kind, middle + value);
    SkipPrefix(middle, value);
  }

  lemma SkipPrefix(prefix: string, rest: string)
    ensures StartsWith(prefix + rest, prefix)
    ensures (prefix + rest)[|prefix|..] == rest
  {
    assert (prefix + rest)[..|prefix|] == prefix;
  }

  lemma ParseKindName(k: TakeOverKind, rest: string)
    ensures ParseKind(KindName(k) + rest) == Some((k, rest))
  {
    SkipPrefix(KindName(k), rest);
    var s := KindName(k) + rest;
    assert s[0] == KindName(k)[0];
    if k != NoneKind {
      assert !StartsWith(s, "none") by {
        assert s[0] != 'n';
      }
    }
    if k == Dialed {
      assert !StartsWith(s, "browser") by {
        assert s[0] != 'b';
      }
    }
  }

  // ---------------------------------------------------------------------------
  // Numbers in log text

  function DigitChar(d: int): char
    requires 0 <= d < 10
  {
    "0123456789"[d]
  }

  /** The decimal text a template literal gives a non-negative integer. */
  function DecimalString(n: nat): (s: string)
    ensures |s| >= 1
    ensures forall i | 0 <= i < |s| :: '0' <= s[i] <= '9'
  {
    if n < 10 then [DigitChar(n)] else DecimalString(n / 10) + [DigitChar(n % 10)]
  }

  /** The number a string of decimal digits denotes. */
  function DecimalValue(s: string): int
  {
    if |s| == 0 then 0 else 10 * DecimalValue(s[..|s| - 1]) + (s[|s| - 1] as int - '0' as int)
  }

  lemma {:induction false} DecimalRoundTrip(n: nat)
    ensures DecimalValue(DecimalString(n)) == n
  {
    var s := DecimalString(n);
    if n >= 10 {
      DecimalRoundTrip(n / 10);
      assert s[..|s| - 1] == DecimalString(n / 10);
    }
  }
}
