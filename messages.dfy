/**
 * Classification of a text message arriving on the data channel (`on_message`
 * in server.py). The exact command `send_frame` asks the track for a frame; a
 * message starting with `ping` is echoed back with `pong` in place of the prefix;
 * anything else is only logged.
 */
module Messages {

  const FrameCommand: string := "send_frame"
  const PingPrefix: string := "ping"
  const PongPrefix: string := "pong"

  /** What the server does in answer to one message; `Reply` is the `channel.send` call. */
  datatype Action = RequestFrame | Reply(text: string) | NoAction

  /** Python's `s.startswith(p)`. */
  predicate StartsWith(s: string, p: string)
  {
    |p| <= |s| && s[..|p|] == p
  }

  function Dispatch(msg: string): (a: Action)
    ensures a.RequestFrame? <==> msg == FrameCommand
    ensures a.NoAction? <==> msg != FrameCommand && !StartsWith(msg, PingPrefix)
    ensures a.Reply? ==>
              StartsWith(msg, PingPrefix) && |a.text| == |msg| &&
              StartsWith(a.text, PongPrefix) && a.text[|PongPrefix|..] == msg[|PingPrefix|..]
  {
    if msg == FrameCommand then RequestFrame
    else if StartsWith(msg, PingPrefix) then Reply(PongPrefix + msg[|PingPrefix|..])
    else NoAction
  }

  /** The frame command does not start with `ping`, so its test first changes no outcome. */
  lemma CommandIsNotPing()
    ensures !StartsWith(FrameCommand, PingPrefix)
  {
    assert FrameCommand[0] == 's' && PingPrefix[0] == 'p';
    assert FrameCommand[..4][0] == FrameCommand[0];
  }

  /** Every `ping` message is answered, and the reply is `pong` followed by the message's tail. */
  lemma PingIsAnswered(msg: string)
    requires StartsWith(msg, PingPrefix)
    ensures Dispatch(msg) == Reply(PongPrefix + msg[|PingPrefix|..])
  {
    CommandIsNotPing();
    var t := Dispatch(msg).text;
    assert t == t[..4] + t[4..];
  }

  /** Swapping the reply's `pong` for `ping` gives back the original message. */
  lemma ReplyRecoversMessage(msg: string)
    requires Dispatch(msg).Reply?
    ensures PingPrefix + Dispatch(msg).text[|PongPrefix|..] == msg
  {
  }

  /** The number of frame requests one message causes. */
  function FrameRequests(a: Action): nat
  {
    if a.RequestFrame? then 1 else 0
  }

  /** The messages one action sends back on the channel. */
  function Sends(a: Action): seq<string>
  {
    if a.Reply? then [a.text] else []
  }

  /** Each message has at most one effect: a frame request, a reply, or nothing. */
  lemma AtMostOneEffect(msg: string)
    ensures FrameRequests(Dispatch(msg)) + |Sends(Dispatch(msg))| <= 1
    ensures FrameRequests(Dispatch(msg)) == 1 <==> msg == FrameCommand
    ensures |Sends(Dispatch(msg))| == 1 <==> StartsWith(msg, PingPrefix)
  {
    CommandIsNotPing();
  }
}
