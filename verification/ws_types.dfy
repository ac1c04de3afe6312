/** Commands into, events out of, and configuration of the WebSocket client. */
module WsTypes {
  import opened Prelude
  import MessageCodec
  import Reconnect

  datatype Url = Url(address: string)

  datatype Command =
    | Text(text: Bytes)
    | Binary(data: Bytes)
    | Close(code: nat, reason: string)
    | NetworkChanged

  /** Why a connection was given up; the texts the events carry, as cases. */
  datatype Reason =
    | SendFailed
    | SendTimeout
    | PingSendTimeout
    | HeartbeatLost
    | NetworkSwitch
    | StreamEnd
    | PeerClose(text: string)
    | ReplayFailed
    | ReplayTimeout

  datatype Failure = EncodeFailure | DecodeFailure | RebuildFailure | ReconnectFailure

  datatype Event =
    | Connected(url: Url, latencyMs: nat)
    | Disconnected(code: nat, reason: Reason)
    | Reconnecting(attempt: nat, delayMs: nat)
    | Message(data: Bytes, isBinary: bool)
    | Error(failure: Failure)
    | HeartbeatRtt(rttMs: nat)

  datatype HeartbeatConfig = HeartbeatConfig(
    intervalMs: u64,
    adaptive: bool,
    pongTimeoutMs: u64,
    maxMissedPongs: nat
  )

  datatype ClientConfig = ClientConfig(
    urls: seq<Url>,
    codec: MessageCodec.CodecConfig,
    reconnect: Option<Reconnect.ReconnectConfig>,
    heartbeat: Option<HeartbeatConfig>
  )
}
