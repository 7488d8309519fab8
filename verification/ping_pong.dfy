/**
  The keep-alive exchange over the `chat` data channel. Every second the client
  sends `'ping ' + stamp`, where stamp counts milliseconds since its first stamp
  (client.js:298). The server answers each text message that starts with `ping`
  with `pong` followed by the rest of the message (server.py:159-162). The client
  logs an RTT for every message whose first four characters are `pong`: the
  current stamp minus `parseInt` of the text after the fifth character
  (client.js:306-307). Stamps are taken as abstract naturals.
*/
module PingPong {
  import opened Wrappers
  import opened JsString

  /** A data-channel message as the server receives it: text or binary. */
  datatype ChannelMessage = Text(text: string) | Binary(bytes: seq<bv8>)

  const PingTag: string := "ping"
  const PongTag: string := "pong"

  /** The server's `on_message`: the reply it sends, if any. */
  function ServerReply(message: ChannelMessage): (reply: Option<string>)
    ensures reply.Some? <==> message.Text? && PingTag <= message.text
    ensures reply.Some? ==> PongTag <= reply.value
    ensures reply.Some? ==> |reply.value| == |message.text|
    ensures reply.Some? ==> reply.value[4..] == message.text[4..]
  {
    if message.Text? && PingTag <= message.text then Some(PongTag + message.text[4..]) else None
  }

  /** The message the client's timer sends with stamp n. */
  function PingMessage(n: nat): (m: string)
    ensures PingTag <= m && |m| > 5 && m[4] == ' '
    ensures m[5..] == NatToString(n)
  {
    PingTag + (" " + NatToString(n))
  }

  /** `s.substring(start)`: start is clamped to the length of s. */
  function SubstringFrom(s: string, start: nat): (r: string)
    ensures |r| == if start <= |s| then |s| - start else 0
  {
    if start <= |s| then s[start..] else []
  }

  /** `s.substring(0, end)`: end is clamped to the length of s. */
  function SubstringTo(s: string, end: nat): (r: string)
    ensures r <= s
  {
    if end <= |s| then s[..end] else s
  }

  /** What the client's message listener does with a received text: either nothing
      beyond logging it, or an RTT line whose value is `None` when `parseInt` gives NaN. */
  datatype PongHandling = NotPong | Rtt(elapsed: Option<int>)

  /** The client's message listener at stamp `now`. */
  function ClientHandle(data: string, now: nat): (h: PongHandling)
    ensures h.Rtt? <==> PongTag <= data
  {
    if SubstringTo(data, 4) == PongTag then
      match ParseInt(SubstringFrom(data, 5))
      case Some(sent) => Rtt(Some(now - sent))
      case None => Rtt(None)
    else NotPong
  }

  /** Round trip: the server answers the client's ping for stamp n; the answer passes the
      client's `pong` check, and the client reads n back, so the RTT is now - n. */
  lemma PingPongRoundTrip(n: nat, now: nat)
    ensures ServerReply(Text(PingMessage(n))).Some?
    ensures ClientHandle(ServerReply(Text(PingMessage(n))).value, now) == Rtt(Some(now - n))
  {
    var ping := PingMessage(n);
    var reply := ServerReply(Text(ping)).value;
    assert reply[..4] == PongTag;
    assert reply[5..] == ping[5..];
    assert NatToString(n) + "" == NatToString(n);
    ParseIntOfNatToString(n, "");
  }

  /** Every reply the server sends passes the client's `pong` check. */
  lemma RepliesAreRecognised(message: ChannelMessage, now: nat)
    ensures ServerReply(message).Some? ==> ClientHandle(ServerReply(message).value, now).Rtt?
  {
  }

  /** Binary messages and texts not starting with `ping` (such as a `pong`) get no reply,
      so the server never answers its own replies. */
  lemma NoReplyToReply(message: ChannelMessage)
    ensures ServerReply(message).Some? ==> ServerReply(Text(ServerReply(message).value)).None?
  {
    if ServerReply(message).Some? {
      var reply := ServerReply(message).value;
      assert reply[1] == 'o';
    }
  }
}
