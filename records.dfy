/**
 * The values the request handler works on: subscription records, the
 * directory entries that hold them, the notifications it sends and the
 * push service's answers. Strings stand for Go strings, one character
 * per byte; times are integers counting nanoseconds.
 */
module Records {
  import opened Wrappers

  newtype byte = x: int | 0 <= x < 256
  type Bytes = seq<byte>

  /** The bytes of a text, one per character; a character that fits in a byte is that byte. */
  function Ascii(s: string): (b: Bytes)
    ensures |b| == |s|
    ensures forall k :: 0 <= k < |s| && s[k] as int < 256 ==> b[k] as int == s[k] as int
  {
    seq(|s|, k requires 0 <= k < |s| => (s[k] as int % 256) as byte)
  }

  /** A subscription record as stored by the IMAP server, one per file. */
  datatype Device = Device(accountId: string, deviceToken: string, mailboxes: seq<string>)

  /**
   * One entry of a mailbox's `.push` directory: its file name, its
   * modification time, and its content, or None when reading it fails.
   */
  datatype Entry = Entry(name: string, modTime: int, content: Option<Bytes>)

  /** What the handler hands to the push client for one device. */
  datatype Notification = Notification(topic: string, deviceToken: string, expiration: int, payload: string)

  /**
   * The push client's answer: a failure of the exchange itself, or the
   * service's response with its status code, reason and timestamp.
   */
  datatype PushOutcome =
    | TransportError
    | Response(statusCode: int, reason: string, timestamp: int)
}
