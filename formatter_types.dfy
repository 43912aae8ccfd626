/**
 * The values the encrypted-message formatter works with, and the external
 * collaborators it calls: the collaborators' answers for one send attempt are
 * a `World`, the library functions it relies on are an `Env`.
 */
module FormatterTypes {
  import opened Wrappers
  import opened Expiry

  /** A message password; its inner structure plays no part in the formatter. */
  type Pwd = string

  /** A signing private key, handed through to the encryption library unchanged. */
  type PrvKey = string

  /** An attachment collected from the composer; `url` is set once the file is hosted. */
  datatype Att = Att(name: string, mimeType: string, length: nat, data: string, url: Option<string>)

  /** The constructor arguments of an attachment the formatter creates itself (`new Att({...})`). */
  datatype AttMeta = AttMeta(data: string, mimeType: Option<string>, name: Option<string>, contentDescription: Option<string>)

  /** An outgoing attachment: one the user attached, or one the formatter synthesised. */
  datatype OutAtt = Collected(att: Att) | Created(meta: AttMeta)

  /** One entry of the draft's recipients object (`to`, `cc`, `bcc`), in insertion order. */
  datatype RecipientGroup = RecipientGroup(kind: string, addresses: seq<string>)

  /** The fields of the draft object at one instant, as a serialiser would see them. */
  datatype MsgSnapshot = MsgSnapshot(
    sender: string, recipients: seq<RecipientGroup>, subject: string,
    plaintext: string, plainhtml: string, pwd: Option<Pwd>)

  /** The two records the formatter passes to `Str.htmlAttrEncode`. */
  datatype AttrData =
    | FileData(size: nat, mimeType: string, name: string)
    | ReplyData(sender: string, recipient: seq<string>, subject: MsgSnapshot, token: string)

  /** The backend credentials of the account. */
  datatype FcAuth = FcAuth(account: string, uuid: string)

  /** A backend error, already classified the way `Api.err` classifies it. */
  datatype ApiErr = AuthErr | StandardErr(internal: string) | OtherErr(description: string)

  /** What `sendableMsg` can throw. */
  datatype SendErr =
    | ComposerUserError(message: string)        // shown to the user, send re-enabled
    | ComposerResetBtnTrigger                   // silent cancellation of the attempt
    | Rewrapped(cause: ApiErr, message: string) // `Catch.rewrapErr(cause, message)`
    | PlainError(message: string)               // `new Error(message)`
    | Backend(cause: ApiErr)                    // a backend error passed through unchanged
    | TypeError                                 // reading a property of `undefined`

  /** One presigned upload target: `base_url` and `fields.key`. */
  datatype Approval = Approval(baseUrl: string, key: string)

  /** One S3 upload item; `att` is absent when the backend sent more approvals than there are files. */
  datatype UploadItem = UploadItem(baseUrl: string, key: string, att: Option<Att>)

  /** The answer to `messageConfirmFiles`. */
  datatype ConfirmRes = ConfirmRes(adminCodes: seq<string>, confirmed: Option<seq<string>>)

  /** The answer to `messageUpload`: the short link id and its admin code. */
  datatype MsgUploadRes = MsgUploadRes(short: string, adminCode: string)

  /** The arguments of one call of the encryption library. */
  datatype EncryptInput = EncryptInput(
    data: string, pwd: Option<Pwd>, pubkeys: seq<string>, signingPrv: Option<PrvKey>, date: Option<int>)

  /** The arguments of `Mime.encode`: body parts, headers and attachments. */
  datatype MimeInput = MimeInput(body: map<string, string>, subject: string, atts: seq<Att>)

  /**
   * Library code the formatter calls, as total functions: attribute encoding,
   * the reply marker element (`Ui.e('div', ...)` around the encoded data), the
   * key library, encryption (its armored output), the MIME encoder, HTML
   * escaping, the localised strings by language, and the armor header line.
   */
  datatype Env = Env(
    htmlAttrEncode: AttrData -> string,
    replyDiv: string -> string,
    readKey: string -> ParsedKey,
    encrypt: EncryptInput -> string,
    mimeEncode: MimeInput -> string,
    xssEscape: string -> string,
    openMsg: string -> string,
    msgEncryptedText: string -> string,
    msgEncryptedHtml: string -> string,
    alternativelyCopyPaste: string -> string,
    armorBeginNull: string)

  /**
   * What the outside world answers during one send attempt: storage, the
   * backend, the attachment collector, the clock, the expired-key prompt, and
   * the intro text typed into the compose window ("" when there is none).
   */
  datatype World = World(
    subscriptionActive: bool,
    storedAuth: Option<FcAuth>,
    tokenResponse: Result<string, ApiErr>,
    encryptAtts: seq<Att>,
    plainAtts: seq<Att>,
    presign: Result<seq<Approval>, ApiErr>,
    s3Upload: Outcome<ApiErr>,
    confirm: Result<ConfirmRes, ApiErr>,
    now: int,
    expiredKeyConfirmed: bool,
    msgUpload: Result<MsgUploadRes, ApiErr>,
    outgoingLanguage: Option<string>,
    intro: string)

  /** The arguments handed to `Google.createMsgObj`. */
  datatype MsgObj = MsgObj(
    acctEmail: string, sender: string, recipients: seq<RecipientGroup>, subject: string,
    body: map<string, string>, atts: seq<OutAtt>, threadId: Option<string>, rootType: Option<string>)

  /** One call from the formatter to an external collaborator, in the order it was made. */
  datatype Call =
    | MessageToken
    | CollectEncryptAtts
    | CollectAtts
    | PresignFiles(attCount: nat)
    | S3Upload(items: seq<UploadItem>)
    | ConfirmFiles(keys: seq<string>)
    | Encrypt(input: EncryptInput)
    | MessageUpload(ciphertext: string)
    | AddAdminCodes(short: string, codes: seq<string>)
}
