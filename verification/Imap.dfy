/** The protocol values the client exchanges with its wire layer, with the parts
    that no task looks at kept as plain text. */
module Imap {
  import opened Base

  newtype Byte = b: int | 0 <= b < 256
  type Bytes = seq<Byte>

  /** Names one enqueued command; issued by the wire layer. */
  datatype CommandHandle = CommandHandle(id: nat)

  /** The tag of a command or of a command completion. */
  datatype Tag = Tag(serial: nat)

  datatype Capability = Imap4Rev1 | SaslIr | MoveCap | SortCap | Named(name: string)

  /** A capability list always has at least one element. */
  type Caps = s: seq<Capability> | |s| > 0 witness [Imap4Rev1]

  /** An instant with the offset it was written in; only the instant is compared. */
  datatype DateTime = DateTime(instant: int, offset: int)

  datatype Envelope = Envelope(date: Option<Bytes>, subject: Option<Bytes>, addresses: Bytes)

  datatype Item =
    | UidItem(uid: nat)
    | InternalDateItem(received: DateTime)
    | EnvelopeItem(envelope: Envelope)
    | SizeItem(size: nat)
    | OtherItem(name: string, value: Bytes)

  datatype ItemName = UidName | InternalDateName | EnvelopeName | SizeName | OtherName(name: string)

  /** The items of one FETCH response; never empty. */
  type Items = s: seq<Item> | |s| > 0 witness [UidItem(1)]

  datatype Kind = OK | NO | BAD

  datatype Code =
    | CapabilityCode(caps: Caps)
    | UnseenCode(unseen: nat)
    | PermanentFlagsCode(flags: seq<string>)
    | UidNextCode(uid: nat)
    | UidValidityCode(uid: nat)
    | HighestModSeqCode(modseq: nat)
    | AppendUidCode(uid: nat, validity: nat)
    | OtherCode(text: string)

  datatype StatusBody = StatusBody(kind: Kind, code: Option<Code>, text: string)

  datatype Bye = Bye(code: Option<Code>, text: string)

  datatype Status = Untagged(body: StatusBody) | ByeStatus(bye: Bye) | Tagged(tag: Tag, body: StatusBody)

  datatype Data =
    | CapabilityData(caps: Caps)
    | FlagsData(flags: seq<string>)
    | ExistsData(count: nat)
    | RecentData(count: nat)
    | FetchData(num: nat, items: Items)
    | SearchData(ids: seq<nat>)
    | SortData(ids: seq<nat>)
    | ThreadData(threads: seq<string>)
    | ListData(row: string)
    | ExpungeData(num: nat)
    | IdData(parameters: Option<string>)
    | EnabledData(enabled: seq<string>)
    | OtherData(text: string)

  /** A command continuation request. */
  datatype Continuation = BasicContinuation(text: string) | Base64Continuation(data: Bytes)

  datatype AuthenticateData = ContinueWith(data: Bytes) | CancelExchange

  datatype AuthMechanism = Plain | OAuthBearer | XOAuth2

  datatype CommandBody =
    | AuthenticateBody(mechanism: AuthMechanism, initialResponse: Option<Bytes>)
    | LoginBody(username: Bytes, password: Bytes)
    | SelectBody(mailbox: string, condstore: bool)
    | ExamineBody(mailbox: string, condstore: bool)
    | CapabilityBody
    | LogoutBody
    | ExpungeBody
    | IdleBody
    | OtherBody(text: string)

  datatype Response =
    | DataResponse(data: Data)
    | ContinuationResponse(continuation: Continuation)
    | StatusResponse(status: Status)
}
