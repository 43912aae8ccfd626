/**
 * `EncryptedMsgMailFormatter`: turns a draft into a sendable encrypted message,
 * as PGP/Inline (plain text) or PGP/MIME (rich text, section 4 of RFC 3156),
 * handling reply tokens, hosted attachments, password-protected delivery and
 * the expired-key policy on the way.
 */
module Formatter {
  import opened Wrappers
  import opened Expiry
  import opened FormatterTypes
  import opened FileLinks
  import opened ReplyToken
  import opened PwdDelivery
  import opened JsText

  const RICH_TEXT_PWD_MSG: string := "Rich text is not yet supported for password encrypted messages, please retry (formatting will be removed)."
  const TOKEN_ERR_MSG: string := "There was a token error sending this message. Please try again. Let us know at human@flowcrypt.com if this happens repeatedly."
  const UPLOAD_ERR_MSG: string := "Attachments did not upload properly, please try again"

  /** The draft being sent. The formatter appends to its two bodies in place. */
  class NewMsgData {
    const sender: string
    const recipients: seq<RecipientGroup>
    const subject: string
    const pwd: Option<Pwd>
    var plaintext: string
    var plainhtml: string

    constructor (sender: string, recipients: seq<RecipientGroup>, subject: string, pwd: Option<Pwd>, plaintext: string, plainhtml: string)
      ensures this.sender == sender && this.recipients == recipients && this.subject == subject && this.pwd == pwd
      ensures this.plaintext == plaintext && this.plainhtml == plainhtml
    {
      this.sender, this.recipients, this.subject, this.pwd := sender, recipients, subject, pwd;
      this.plaintext, this.plainhtml := plaintext, plainhtml;
    }

    /** The draft's current field values. */
    function Snapshot(): MsgSnapshot
      reads this
    {
      MsgSnapshot(sender, recipients, subject, plaintext, plainhtml, pwd)
    }
  }

  /** The two synthetic parts of a PGP/MIME message: version identification, then the ciphertext. */
  function PgpMimeAtts(ciphertext: string): seq<OutAtt>
  {
    [ Created(AttMeta("Version: 1", Some("application/pgp-encrypted"), None, Some("PGP/MIME version identification"))),
      Created(AttMeta(ciphertext, Some("application/octet-stream"), Some("encrypted.asc"), Some("OpenPGP encrypted message"))) ]
  }

  /** The attachments of a plain message: the collected ones, or, with a password, at most the ciphertext. */
  function OutgoingPlainAtts(pwd: Option<Pwd>, pubkeyCount: nat, collected: seq<Att>, ciphertext: string): seq<OutAtt>
  {
    if pwd.None? then seq(|collected|, i requires 0 <= i < |collected| => Collected(collected[i]))
    else if pubkeyCount == 1 then []
    else [Created(AttMeta(ciphertext, None, Some("encrypted.asc"), None))]
  }

  /**
   * Without a password the collected attachments go out as they are; with one,
   * nothing goes out for a single recipient key, and the ciphertext as
   * `encrypted.asc` otherwise.
   */
  lemma OutgoingPlainAttsCases(pwd: Option<Pwd>, pubkeyCount: nat, collected: seq<Att>, ciphertext: string)
    ensures var r := OutgoingPlainAtts(pwd, pubkeyCount, collected, ciphertext);
      && (pwd.None? ==> |r| == |collected| && forall i :: 0 <= i < |r| ==> r[i] == Collected(collected[i]))
      && (pwd.Some? && pubkeyCount == 1 ==> r == [])
      && (pwd.Some? && pubkeyCount != 1 ==>
            |r| == 1 && r[0].Created? && r[0].meta.name == Some("encrypted.asc") && r[0].meta.data == ciphertext)
  {
  }

  /** The upload items, paired with the attachments by index. */
  function UploadItems(approvals: seq<Approval>, atts: seq<Att>): seq<UploadItem>
  {
    seq(|approvals|, i requires 0 <= i < |approvals| =>
      UploadItem(approvals[i].baseUrl, approvals[i].key, if i < |atts| then Some(atts[i]) else None))
  }

  function ItemKeys(items: seq<UploadItem>): seq<string>
  {
    seq(|items|, i requires 0 <= i < |items| => items[i].key)
  }

  /** The attachments once the first `n` of them have their hosted url: `base_url + fields.key`. */
  function Uploaded(atts: seq<Att>, approvals: seq<Approval>, n: nat): seq<Att>
    requires n <= |atts| && n <= |approvals|
  {
    seq(|atts|, i requires 0 <= i < |atts| =>
      if i < n then atts[i].(url := Some(approvals[i].baseUrl + approvals[i].key)) else atts[i])
  }

  /** The confirmation lists exactly as many files as were uploaded. */
  predicate UploadConfirmed(res: ConfirmRes, itemCount: nat)
  {
    res.confirmed.Some? && |res.confirmed.value| == itemCount
  }

  /**
   * The loop that builds the S3 upload items: one per approval, each paired
   * with the attachment of the same index (none past the last attachment).
   */
  method BuildUploadItems(approvals: seq<Approval>, atts: array<Att>) returns (items: seq<UploadItem>)
    ensures |items| == |approvals|
    ensures forall i :: 0 <= i < |items| ==>
      items[i].baseUrl == approvals[i].baseUrl && items[i].key == approvals[i].key &&
      items[i].att == (if i < atts.Length then Some(atts[i]) else None)
  {
    items := [];
    for i := 0 to |approvals|
      invariant |items| == i
      invariant forall j :: 0 <= j < i ==>
        items[j].baseUrl == approvals[j].baseUrl && items[j].key == approvals[j].key &&
        items[j].att == (if j < atts.Length then Some(atts[j]) else None)
    {
      var att := if i < atts.Length then Some(atts[i]) else None;
      items := items + [UploadItem(approvals[i].baseUrl, approvals[i].key, att)];
    }
  }

  /** The date override handed to the encryption library. */
  function DateOf(d: AsOfDecision): Option<int>
  {
    if d.EncryptAsOf? then Some(d.date) else None
  }

  /** The expiration policy lets the encryption go ahead. */
  predicate Proceeds(d: AsOfDecision)
  {
    d.NoOverride? || d.EncryptAsOf?
  }

  /** `subscription.active ? await Store.authInfo(acctEmail) : undefined` */
  function AuthInfo(w: World): Option<FcAuth>
  {
    if w.subscriptionActive then w.storedAuth else None
  }

  /** The reply token is requested only with a password, an active subscription and credentials. */
  predicate TokenWanted(pwd: Option<Pwd>, subscriptionActive: bool, authInfo: Option<FcAuth>)
  {
    pwd.Some? && subscriptionActive && authInfo.Some?
  }

  /** The reply-token step lets the send continue. */
  predicate TokenStepPasses(pwd: Option<Pwd>, w: World)
  {
    !TokenWanted(pwd, w.subscriptionActive, AuthInfo(w)) || w.tokenResponse.Ok? || w.tokenResponse == Err(StandardErr("subscription"))
  }

  /** Upload, transfer and confirmation of `n` attachments all succeed. */
  predicate UploadSucceeds(w: World, n: nat)
  {
    w.presign.Ok? && w.s3Upload.Pass? && w.confirm.Ok? &&
    UploadConfirmed(w.confirm.value, |w.presign.value|) && n <= |w.presign.value|
  }

  /** With a password, attachments are uploaded; when that succeeds they are linked from the body. */
  predicate Linked(pwd: Option<Pwd>, w: World)
  {
    pwd.Some? && |w.encryptAtts| > 0 && UploadSucceeds(w, |w.encryptAtts|)
  }

  /** The upload step lets the send continue: nothing to upload, or the upload succeeds. */
  predicate UploadStepPasses(pwd: Option<Pwd>, w: World)
  {
    pwd.Some? && |w.encryptAtts| > 0 ==> UploadSucceeds(w, |w.encryptAtts|)
  }

  /** The collected attachments with their hosted urls. */
  function HostedAtts(w: World): seq<Att>
    requires UploadSucceeds(w, |w.encryptAtts|)
  {
    Uploaded(w.encryptAtts, w.presign.value, |w.encryptAtts|)
  }

  /**
   * The external calls of an attachment upload: presign, then the transfer once
   * approvals arrive, then the confirmation once the transfer succeeds.
   */
  function UploadCalls(w: World): seq<Call>
  {
    [PresignFiles(|w.encryptAtts|)] +
    if w.presign.Err? then []
    else
      var items := UploadItems(w.presign.value, w.encryptAtts);
      [S3Upload(items)] + (if w.s3Upload.Pass? then [ConfirmFiles(ItemKeys(items))] else [])
  }

  /** The error a failed upload of `n` attachments passes on: the first step that failed decides it. */
  function UploadError(w: World, n: nat): SendErr
    requires !UploadSucceeds(w, n)
  {
    if w.presign.Err? then Backend(w.presign.error)
    else if w.s3Upload.Fail? then Backend(w.s3Upload.error)
    else if w.confirm.Err? then Backend(w.confirm.error)
    else if !UploadConfirmed(w.confirm.value, |w.presign.value|) then PlainError(UPLOAD_ERR_MSG)
    else TypeError
  }

  /** The error that stops the reply-token step: an auth error cancels, any other is rewrapped. */
  function TokenError(w: World): SendErr
    requires w.tokenResponse.Err?
  {
    if w.tokenResponse.error == AuthErr then ComposerResetBtnTrigger else Rewrapped(w.tokenResponse.error, TOKEN_ERR_MSG)
  }

  /** The reply marker is appended: the token was wanted and obtained. */
  predicate TokenAppended(pwd: Option<Pwd>, w: World)
  {
    TokenWanted(pwd, w.subscriptionActive, AuthInfo(w)) && w.tokenResponse.Ok?
  }

  /** What the reply-token step appends to a body, after the separator `sep`. */
  function TokenSuffix(sep: string, env: Env, draft: MsgSnapshot, acctEmail: string, w: World): string
  {
    if TokenAppended(draft.pwd, w) then sep + ReplyMarker(env, draft, acctEmail, w.tokenResponse.value) else ""
  }

  /** What the attachment step appends to the plain text: the links to the hosted files. */
  function LinkSuffix(pwd: Option<Pwd>, w: World, env: Env): string
  {
    if Linked(pwd, w) then "\n\n" + LinkLines(HostedAtts(w), env.htmlAttrEncode) else ""
  }

  /** The admin codes the attachment step adds. */
  function LinkAdminCodes(pwd: Option<Pwd>, w: World): seq<string>
  {
    if Linked(pwd, w) then w.confirm.value.adminCodes else []
  }

  /** The external calls of the reply-token step. */
  function TokenCalls(pwd: Option<Pwd>, w: World): seq<Call>
  {
    if TokenWanted(pwd, w.subscriptionActive, AuthInfo(w)) then [MessageToken] else []
  }

  /** The external calls of the attachment step: collect, then, with a password and attachments, the upload. */
  function LinkCalls(pwd: Option<Pwd>, w: World): seq<Call>
  {
    [CollectEncryptAtts] + (if pwd.Some? && |w.encryptAtts| > 0 then UploadCalls(w) else [])
  }

  /** No call of the trace is an encryption. */
  predicate NoEncrypt(cs: seq<Call>)
  {
    forall i :: 0 <= i < |cs| ==> !cs[i].Encrypt?
  }

  /** Neither the token step nor the attachment step encrypts anything. */
  lemma StepsBeforeEncryptionDoNotEncrypt(pwd: Option<Pwd>, w: World)
    ensures NoEncrypt(TokenCalls(pwd, w)) && NoEncrypt(TokenCalls(pwd, w) + LinkCalls(pwd, w))
  {
  }

  /** In `steps + [e] + rest`, with no encryption in `steps` or `rest`, the one encryption sits right after `steps`. */
  lemma OnlyEncryptionAt(steps: seq<Call>, e: Call, rest: seq<Call>)
    requires NoEncrypt(steps) && e.Encrypt? && NoEncrypt(rest)
    ensures var cs := steps + [e] + rest;
      && cs[..|steps|] == steps && cs[|steps|] == e
      && forall i :: 0 <= i < |cs| && cs[i].Encrypt? ==> i == |steps|
  {
    var cs := steps + [e] + rest;
    assert cs[..|steps|] == steps;
    forall i | 0 <= i < |cs| && cs[i].Encrypt?
      ensures i == |steps|
    {
    }
  }

  class EncryptedMsgMailFormatter {
    const armoredPubkeys: seq<PubkeyResult>
    const richText: bool
    const acctEmail: string
    const threadId: Option<string>
    const FC_WEB_URL: string := "https://flowcrypt.com"
    const pgpMimeRootType: string := "multipart/encrypted; protocol=\"application/pgp-encrypted\";"
    /** Admin codes of hosted attachments, accumulated over every attempt of this instance and never cleared. */
    var fcAdminCodes: seq<string>
    /** The external calls made so far, in order. */
    ghost var calls: seq<Call>

    constructor (armoredPubkeys: seq<PubkeyResult>, richText: bool, acctEmail: string, threadId: Option<string>)
      ensures this.armoredPubkeys == armoredPubkeys && this.richText == richText
      ensures this.acctEmail == acctEmail && this.threadId == threadId
      ensures fcAdminCodes == [] && calls == []
    {
      this.armoredPubkeys, this.richText := armoredPubkeys, richText;
      this.acctEmail, this.threadId := acctEmail, threadId;
      fcAdminCodes := [];
      calls := [];
    }

    function Pubkeys(): seq<string>
    {
      seq(|armoredPubkeys|, i requires 0 <= i < |armoredPubkeys| => armoredPubkeys[i].pubkey)
    }

    /** The expiration policy's verdict on this instance's keys. */
    function Decision(w: World, env: Env): AsOfDecision
    {
      AsOfDate(FactsOf(armoredPubkeys, env.readKey), w.now, w.expiredKeyConfirmed)
    }

    /** What the single encryption call of an attempt receives. */
    function EncryptArgs(data: string, pwd: Option<Pwd>, signingPrv: Option<PrvKey>, w: World, env: Env): EncryptInput
    {
      EncryptInput(data, pwd, Pubkeys(), signingPrv, DateOf(Decision(w, env)))
    }

    /**
     * `encryptData`: consult the expiration policy, then encrypt once, as of the
     * date it chose; an abort of the policy cancels the attempt before encrypting.
     */
    method EncryptData(data: string, pwd: Option<Pwd>, signingPrv: Option<PrvKey>, w: World, env: Env)
      returns (r: Result<string, SendErr>)
      modifies this`calls
      ensures Proceeds(Decision(w, env)) ==>
        r == Ok(env.encrypt(EncryptArgs(data, pwd, signingPrv, w, env))) &&
        calls == old(calls) + [Encrypt(EncryptArgs(data, pwd, signingPrv, w, env))]
      ensures !Proceeds(Decision(w, env)) ==> r == Err(ComposerResetBtnTrigger) && calls == old(calls)
    {
      var d := EncryptMsgAsOfDateIfSomeAreExpiredAndUserConfirmedModal(armoredPubkeys, env.readKey, w.now, w.expiredKeyConfirmed);
      if !(d.NoOverride? || d.EncryptAsOf?) {
        return Err(ComposerResetBtnTrigger);
      }
      var input := EncryptInput(data, pwd, Pubkeys(), signingPrv, DateOf(d));
      calls := calls + [Encrypt(input)];
      return Ok(env.encrypt(input));
    }

    /**
     * `addReplyTokenToMsgBodyIfNeeded`: with a password, an active subscription
     * and credentials, fetch a token and append the hidden reply marker to both
     * bodies; an auth error cancels, a subscription error skips the marker and
     * any other error is rewrapped.
     */
    method AddReplyTokenToMsgBodyIfNeeded(
      authInfo: Option<FcAuth>, newMsgData: NewMsgData, subscriptionActive: bool,
      tokenResponse: Result<string, ApiErr>, env: Env)
      returns (r: Outcome<SendErr>)
      modifies newMsgData`plaintext, newMsgData`plainhtml, this`calls
      ensures !TokenWanted(newMsgData.pwd, subscriptionActive, authInfo) ==>
        r == Pass && unchanged(newMsgData) && calls == old(calls)
      ensures TokenWanted(newMsgData.pwd, subscriptionActive, authInfo) ==> calls == old(calls) + [MessageToken]
      ensures TokenWanted(newMsgData.pwd, subscriptionActive, authInfo) && tokenResponse.Ok? ==>
        var marker := ReplyMarker(env, old(newMsgData.Snapshot()), acctEmail, tokenResponse.value);
        && r == Pass
        && newMsgData.plaintext == old(newMsgData.plaintext) + "\n\n" + marker
        && newMsgData.plainhtml == old(newMsgData.plainhtml) + "<br /><br />" + marker
      ensures tokenResponse.Err? ==> unchanged(newMsgData)
      ensures TokenWanted(newMsgData.pwd, subscriptionActive, authInfo) && tokenResponse == Err(AuthErr) ==>
        r == Fail(ComposerResetBtnTrigger)
      ensures tokenResponse == Err(StandardErr("subscription")) ==> r == Pass
      ensures (TokenWanted(newMsgData.pwd, subscriptionActive, authInfo) && tokenResponse.Err? &&
               tokenResponse.error != AuthErr && tokenResponse.error != StandardErr("subscription")) ==>
        r == Fail(Rewrapped(tokenResponse.error, TOKEN_ERR_MSG))
    {
      if newMsgData.pwd.None? || !subscriptionActive || authInfo.None? {
        return Pass;
      }
      calls := calls + [MessageToken];
      match tokenResponse {
        case Ok(token) =>
          var infoDiv := ReplyMarker(env, newMsgData.Snapshot(), acctEmail, token);
          newMsgData.plaintext := newMsgData.plaintext + "\n\n" + infoDiv;
          newMsgData.plainhtml := newMsgData.plainhtml + "<br /><br />" + infoDiv;
          return Pass;
        case Err(e) =>
          if e == AuthErr {
            return Fail(ComposerResetBtnTrigger);
          } else if e == StandardErr("subscription") {
            return Pass;
          }
          return Fail(Rewrapped(e, TOKEN_ERR_MSG));
      }
    }

    /**
     * `uploadAttsToFc`: presign, upload, confirm; only when the confirmed count
     * matches the items are urls assigned (in place) and admin codes appended.
     * Past the last approval, reading `approvals[i].base_url` throws.
     */
    method UploadAttsToFc(
      authInfo: Option<FcAuth>, atts: array<Att>, presign: Result<seq<Approval>, ApiErr>,
      s3Upload: Outcome<ApiErr>, confirm: Result<ConfirmRes, ApiErr>)
      returns (r: Outcome<SendErr>)
      modifies this`fcAdminCodes, this`calls, atts
      ensures r.Fail? ==> fcAdminCodes == old(fcAdminCodes)
      ensures presign.Err? ==>
        r == Fail(Backend(presign.error)) && unchanged(atts) && calls == old(calls) + [PresignFiles(atts.Length)]
      ensures presign.Ok? ==>
        var approvals := presign.value;
        var items := UploadItems(approvals, old(atts[..]));
        && calls == old(calls) + [PresignFiles(atts.Length), S3Upload(items)] + (if s3Upload.Pass? then [ConfirmFiles(ItemKeys(items))] else [])
        && (s3Upload.Fail? ==> r == Fail(Backend(s3Upload.error)) && unchanged(atts))
        && (s3Upload.Pass? && confirm.Err? ==> r == Fail(Backend(confirm.error)) && unchanged(atts))
        && (s3Upload.Pass? && confirm.Ok? && !UploadConfirmed(confirm.value, |approvals|) ==>
              r == Fail(PlainError(UPLOAD_ERR_MSG)) && unchanged(atts))
        && (s3Upload.Pass? && confirm.Ok? && UploadConfirmed(confirm.value, |approvals|) && |approvals| < atts.Length ==>
              r == Fail(TypeError) && atts[..] == Uploaded(old(atts[..]), approvals, |approvals|))
        && (s3Upload.Pass? && confirm.Ok? && UploadConfirmed(confirm.value, |approvals|) && atts.Length <= |approvals| ==>
              && r == Pass
              && atts[..] == Uploaded(old(atts[..]), approvals, atts.Length)
              && fcAdminCodes == old(fcAdminCodes) + confirm.value.adminCodes)
    {
      calls := calls + [PresignFiles(atts.Length)];
      if presign.Err? {
        return Fail(Backend(presign.error));
      }
      var approvals := presign.value;
      var items := BuildUploadItems(approvals, atts);
      assert items == UploadItems(approvals, atts[..]);
      calls := calls + [S3Upload(items)];
      if s3Upload.Fail? {
        return Fail(Backend(s3Upload.error));
      }
      calls := calls + [ConfirmFiles(ItemKeys(items))];
      if confirm.Err? {
        return Fail(Backend(confirm.error));
      }
      var res := confirm.value;
      if res.confirmed.None? || |res.confirmed.value| != |items| {
        return Fail(PlainError(UPLOAD_ERR_MSG));
      }
      for i := 0 to atts.Length
        modifies atts
        invariant i <= |approvals|
        invariant atts[..] == Uploaded(old(atts[..]), approvals, i)
      {
        if i >= |approvals| {
          return Fail(TypeError);
        }
        atts[i] := atts[i].(url := Some(approvals[i].baseUrl + approvals[i].key));
      }
      fcAdminCodes := fcAdminCodes + res.adminCodes;
      r := Pass;
    }

    /**
     * `uploadAndFormatPwdProtectedEmail`: host the ciphertext, store the new
     * admin code ahead of every accumulated one under the short id, and
     * overwrite both body slots with a summary linking to the hosted message.
     */
    method UploadAndFormatPwdProtectedEmail(
      authInfo: Option<FcAuth>, encryptedBody: map<string, string>, w: World, env: Env)
      returns (r: Result<map<string, string>, SendErr>)
      requires "text/plain" in encryptedBody
      modifies this`calls
      ensures w.msgUpload.Err? ==>
        r == Err(Backend(w.msgUpload.error)) && calls == old(calls) + [MessageUpload(encryptedBody["text/plain"])]
      ensures w.msgUpload.Ok? ==>
        var short, adminCode := w.msgUpload.value.short, w.msgUpload.value.adminCode;
        var lang := OutgoingLanguage(w.outgoingLanguage);
        var url := MsgUrl(FC_WEB_URL, short);
        && calls == old(calls) + [MessageUpload(encryptedBody["text/plain"]), AddAdminCodes(short, [adminCode] + fcAdminCodes)]
        && r == Ok(encryptedBody["text/plain" := PlainSummary(env, w.intro, lang, url)]["text/html" := HtmlSummary(env, w.intro, lang, url)])
    {
      calls := calls + [MessageUpload(encryptedBody["text/plain"])];
      if w.msgUpload.Err? {
        return Err(Backend(w.msgUpload.error));
      }
      var short, adminCode := w.msgUpload.value.short, w.msgUpload.value.adminCode;
      var lang := OutgoingLanguage(w.outgoingLanguage);
      var msgUrl := MsgUrl(FC_WEB_URL, short);
      var text := PlainSummary(env, w.intro, lang, msgUrl);
      var html := HtmlSummary(env, w.intro, lang, msgUrl);
      calls := calls + [AddAdminCodes(short, [adminCode] + fcAdminCodes)];
      var body := encryptedBody["text/plain" := text];
      body := body["text/html" := html];
      return Ok(body);
    }

    /** The MIME document encrypted in rich-text mode. */
    function MimeDoc(newMsg: NewMsgData, w: World, env: Env): string
      reads newMsg
    {
      env.mimeEncode(MimeInput(map["text/plain" := newMsg.plaintext, "text/html" := newMsg.plainhtml], newMsg.subject, w.plainAtts))
    }

    /**
     * The PGP/MIME branch of `sendableMsg`: refused outright with a password;
     * otherwise the whole MIME document is encrypted once and sent as the two
     * parts of section 4 of RFC 3156, with an empty body.
     */
    method SendRich(newMsg: NewMsgData, signingPrv: Option<PrvKey>, w: World, env: Env)
      returns (r: Result<MsgObj, SendErr>)
      modifies this`calls
      ensures newMsg.pwd.Some? ==> r == Err(ComposerUserError(RICH_TEXT_PWD_MSG)) && calls == old(calls)
      ensures newMsg.pwd.None? ==>
        var input := EncryptArgs(MimeDoc(newMsg, w, env), None, signingPrv, w, env);
        && (Proceeds(Decision(w, env)) ==>
              && r == Ok(MsgObj(acctEmail, newMsg.sender, newMsg.recipients, newMsg.subject, map[],
                                PgpMimeAtts(env.encrypt(input)), threadId, Some(pgpMimeRootType)))
              && calls == old(calls) + [CollectAtts, Encrypt(input)])
        && (!Proceeds(Decision(w, env)) ==> r == Err(ComposerResetBtnTrigger) && calls == old(calls) + [CollectAtts])
    {
      if newMsg.pwd.Some? {
        return Err(ComposerUserError(RICH_TEXT_PWD_MSG));
      }
      calls := calls + [CollectAtts];
      var pgpMimeToEncrypt := MimeDoc(newMsg, w, env);
      var encrypted := EncryptData(pgpMimeToEncrypt, None, signingPrv, w, env);
      if encrypted.Err? {
        return Err(encrypted.error);
      }
      var atts := PgpMimeAtts(encrypted.value);
      return Ok(MsgObj(acctEmail, newMsg.sender, newMsg.recipients, newMsg.subject, map[], atts, threadId, Some(pgpMimeRootType)));
    }

    /** `collectEncryptAtts`: the draft's attachments, in a fresh array. */
    method CollectAttsForEncryption(w: World) returns (atts: array<Att>)
      modifies this`calls
      ensures fresh(atts) && atts[..] == w.encryptAtts
      ensures calls == old(calls) + [CollectEncryptAtts]
    {
      calls := calls + [CollectEncryptAtts];
      atts := new Att[|w.encryptAtts|](i requires 0 <= i < |w.encryptAtts| => w.encryptAtts[i]);
      assert atts[..] == w.encryptAtts;
    }

    /**
     * With a password and at least one attachment: host the attachments, then
     * link them from the body, in that order, because the links show the urls
     * the upload assigns.
     */
    method HostAndLinkAtts(newMsg: NewMsgData, authInfo: Option<FcAuth>, atts: array<Att>, w: World, env: Env)
      returns (r: Outcome<SendErr>)
      requires atts[..] == w.encryptAtts
      modifies this`fcAdminCodes, this`calls, newMsg`plaintext, atts
      ensures r.Pass? <==> UploadSucceeds(w, |w.encryptAtts|)
      ensures calls == old(calls) + UploadCalls(w)
      ensures r.Fail? ==>
        && r.error == UploadError(w, |w.encryptAtts|)
        && newMsg.plaintext == old(newMsg.plaintext)
        && fcAdminCodes == old(fcAdminCodes)
      ensures r.Pass? ==>
        && atts[..] == HostedAtts(w)
        && newMsg.plaintext == old(newMsg.plaintext) + "\n\n" + LinkLines(HostedAtts(w), env.htmlAttrEncode)
        && fcAdminCodes == old(fcAdminCodes) + w.confirm.value.adminCodes
    {
      var upload := UploadAttsToFc(authInfo, atts, w.presign, w.s3Upload, w.confirm);
      if upload.Fail? {
        return upload;
      }
      newMsg.plaintext := AddUploadedFileLinksToMsgBody(newMsg.plaintext, atts, env.htmlAttrEncode);
      return Pass;
    }

    /**
     * Collect the attachments and, with a password, host them and link them
     * from the body.
     */
    method CollectAndLinkAtts(newMsg: NewMsgData, authInfo: Option<FcAuth>, w: World, env: Env)
      returns (r: Result<seq<Att>, SendErr>)
      modifies this`fcAdminCodes, this`calls, newMsg`plaintext
      ensures newMsg.plaintext == old(newMsg.plaintext) + LinkSuffix(newMsg.pwd, w, env)
      ensures fcAdminCodes == old(fcAdminCodes) + LinkAdminCodes(newMsg.pwd, w)
      ensures r.Ok? <==> UploadStepPasses(newMsg.pwd, w)
      ensures calls == old(calls) + LinkCalls(newMsg.pwd, w)
      ensures r.Err? ==> r.error == UploadError(w, |w.encryptAtts|)
      ensures r.Ok? ==> r.value == (if Linked(newMsg.pwd, w) then HostedAtts(w) else w.encryptAtts)
    {
      var atts := CollectAttsForEncryption(w);
      if !(newMsg.pwd.Some? && atts.Length > 0) {
        return Ok(atts[..]);
      }
      var upload := HostAndLinkAtts(newMsg, authInfo, atts, w, env);
      if upload.Fail? {
        return Err(upload.error);
      }
      return Ok(atts[..]);
    }

    /**
     * The external calls of delivering a password-protected message: host the
     * ciphertext, then, once it is hosted, store the admin codes.
     */
    function DeliveryCalls(pwd: Option<Pwd>, cipher: string, w: World): seq<Call>
      reads this
    {
      if pwd.None? then []
      else
        [MessageUpload(cipher)] +
        (if w.msgUpload.Ok? then [AddAdminCodes(w.msgUpload.value.short, [w.msgUpload.value.adminCode] + fcAdminCodes)] else [])
    }

    /** The body of a sent plain message: the ciphertext, or with a password the two link summaries. */
    function PlainBody(pwd: Option<Pwd>, cipher: string, w: World, env: Env): map<string, string>
      requires pwd.Some? ==> w.msgUpload.Ok?
    {
      var body := map["text/plain" := cipher];
      if pwd.None? then body
      else
        var lang := OutgoingLanguage(w.outgoingLanguage);
        var url := MsgUrl(FC_WEB_URL, w.msgUpload.value.short);
        body["text/plain" := PlainSummary(env, w.intro, lang, url)]["text/html" := HtmlSummary(env, w.intro, lang, url)]
    }

    /**
     * Encrypt the final plain text once and build the message; with a password
     * the ciphertext is hosted and the body replaced by the link summary.
     */
    method EncryptAndFormatPlain(newMsg: NewMsgData, atts: seq<Att>, signingPrv: Option<PrvKey>, authInfo: Option<FcAuth>, w: World, env: Env)
      returns (r: Result<MsgObj, SendErr>)
      modifies this`calls
      ensures r == EncryptPlainResult(newMsg, atts, newMsg.plaintext, signingPrv, w, env)
      ensures calls == old(calls) + EncryptPlainCalls(newMsg.pwd, newMsg.plaintext, signingPrv, w, env)
    {
      var encrypted := EncryptData(newMsg.plaintext, newMsg.pwd, signingPrv, w, env);
      if encrypted.Err? {
        assert EncryptPlainCalls(newMsg.pwd, newMsg.plaintext, signingPrv, w, env) == [];
        assert calls == old(calls) + [];
        return Err(encrypted.error);
      }
      r := DeliverPlain(newMsg, atts, encrypted.value, authInfo, w, env);
      AppendAssoc(old(calls), [Encrypt(EncryptArgs(newMsg.plaintext, newMsg.pwd, signingPrv, w, env))],
                  DeliveryCalls(newMsg.pwd, encrypted.value, w));
    }

    /**
     * Build the plain message around the ciphertext. With a password the
     * ciphertext is hosted and the body replaced by the link summary.
     */
    method DeliverPlain(newMsg: NewMsgData, atts: seq<Att>, cipher: string, authInfo: Option<FcAuth>, w: World, env: Env)
      returns (r: Result<MsgObj, SendErr>)
      modifies this`calls
      ensures r == FormatPlain(newMsg, atts, cipher, w, env)
      ensures calls == old(calls) + DeliveryCalls(newMsg.pwd, cipher, w)
    {
      var encryptedBody := map["text/plain" := cipher];
      var outAtts := seq(|atts|, i requires 0 <= i < |atts| => Collected(atts[i]));
      if newMsg.pwd.Some? {
        var delivered := UploadAndFormatPwdProtectedEmail(authInfo, encryptedBody, w, env);
        if delivered.Err? {
          return Err(delivered.error);
        }
        encryptedBody := delivered.value;
        // the attachments are already linked from the hosted message; only with
        // several recipient keys does the ciphertext also go out as a file
        outAtts := if |Pubkeys()| == 1 then [] else [Created(AttMeta(cipher, None, Some("encrypted.asc"), None))];
        assert |Pubkeys()| == |armoredPubkeys|;
      } else {
        assert calls == old(calls) + [];
      }
      return Ok(MsgObj(acctEmail, newMsg.sender, newMsg.recipients, newMsg.subject, encryptedBody, outAtts, threadId, None));
    }

    /**
     * The outcome of encrypting the final plain text `text`: an abort of the
     * expiration policy cancels, a failed message upload is passed on, and
     * otherwise the message carries the ciphertext.
     */
    function EncryptPlainResult(newMsg: NewMsgData, collected: seq<Att>, text: string, signingPrv: Option<PrvKey>, w: World, env: Env)
      : Result<MsgObj, SendErr>
    {
      if !Proceeds(Decision(w, env)) then Err(ComposerResetBtnTrigger)
      else FormatPlain(newMsg, collected, env.encrypt(EncryptArgs(text, newMsg.pwd, signingPrv, w, env)), w, env)
    }

    /** The message built around the ciphertext `cipher`; with a password, a failed message upload is passed on. */
    function FormatPlain(newMsg: NewMsgData, collected: seq<Att>, cipher: string, w: World, env: Env): Result<MsgObj, SendErr>
    {
      if newMsg.pwd.Some? && w.msgUpload.Err? then Err(Backend(w.msgUpload.error))
      else
        Ok(MsgObj(acctEmail, newMsg.sender, newMsg.recipients, newMsg.subject,
                  PlainBody(newMsg.pwd, cipher, w, env),
                  OutgoingPlainAtts(newMsg.pwd, |armoredPubkeys|, collected, cipher), threadId, None))
    }

    /** The external calls of the encryption step: none on a policy abort, else one encryption and the delivery. */
    function EncryptPlainCalls(pwd: Option<Pwd>, text: string, signingPrv: Option<PrvKey>, w: World, env: Env): seq<Call>
      reads this
    {
      if !Proceeds(Decision(w, env)) then []
      else
        var input := EncryptArgs(text, pwd, signingPrv, w, env);
        [Encrypt(input)] + DeliveryCalls(pwd, env.encrypt(input), w)
    }

    /**
     * The outcome of the PGP/Inline branch for a draft whose plain text ends up
     * as `text`: the first failing step decides the error, and otherwise the
     * message carries the ciphertext of `text`.
     */
    function PlainResult(newMsg: NewMsgData, text: string, signingPrv: Option<PrvKey>, w: World, env: Env): Result<MsgObj, SendErr>
    {
      if !TokenStepPasses(newMsg.pwd, w) then Err(TokenError(w))
      else if !UploadStepPasses(newMsg.pwd, w) then Err(UploadError(w, |w.encryptAtts|))
      else EncryptPlainResult(newMsg, w.encryptAtts, text, signingPrv, w, env)
    }

    /** The external calls after the reply-token step: the attachment step, then, if it passes, the encryption step. */
    function LinkPlainCalls(pwd: Option<Pwd>, text: string, signingPrv: Option<PrvKey>, w: World, env: Env): seq<Call>
      reads this
    {
      LinkCalls(pwd, w) + if UploadStepPasses(pwd, w) then EncryptPlainCalls(pwd, text, signingPrv, w, env) else []
    }

    /** The external calls of the PGP/Inline branch: the token step, and the rest only when it passes. */
    function PlainCalls(pwd: Option<Pwd>, text: string, signingPrv: Option<PrvKey>, w: World, env: Env): seq<Call>
      reads this
    {
      TokenCalls(pwd, w) + if TokenStepPasses(pwd, w) then LinkPlainCalls(pwd, text, signingPrv, w, env) else []
    }

    /**
     * The PGP/Inline branch encrypts at most once, and only when the token and
     * attachment steps pass and the expiration policy proceeds. The encryption
     * comes right after every call of those two steps, and it receives the
     * final text.
     */
    lemma PlainEncryptsOnceAfterBodyChanges(pwd: Option<Pwd>, text: string, signingPrv: Option<PrvKey>, w: World, env: Env)
      ensures var cs, steps := PlainCalls(pwd, text, signingPrv, w, env), TokenCalls(pwd, w) + LinkCalls(pwd, w);
        && ((exists i :: 0 <= i < |cs| && cs[i].Encrypt?) <==>
              TokenStepPasses(pwd, w) && UploadStepPasses(pwd, w) && Proceeds(Decision(w, env)))
        && forall i :: 0 <= i < |cs| && cs[i].Encrypt? ==>
             && i == |steps|
             && cs[..i] == steps
             && cs[i] == Encrypt(EncryptArgs(text, pwd, signingPrv, w, env))
    {
      var cs, steps := PlainCalls(pwd, text, signingPrv, w, env), TokenCalls(pwd, w) + LinkCalls(pwd, w);
      var input := EncryptArgs(text, pwd, signingPrv, w, env);
      var delivery := DeliveryCalls(pwd, env.encrypt(input), w);
      StepsBeforeEncryptionDoNotEncrypt(pwd, w);
      if TokenStepPasses(pwd, w) && UploadStepPasses(pwd, w) && Proceeds(Decision(w, env)) {
        PlainCallsWhenEncrypting(pwd, text, signingPrv, w, env);
        assert NoEncrypt(delivery);
        OnlyEncryptionAt(steps, Encrypt(input), delivery);
      } else {
        PlainCallsWithoutEncrypting(pwd, text, signingPrv, w, env);
      }
    }

    /** When the token and attachment steps pass and the policy proceeds, the branch's trace is the steps, the encryption and the delivery. */
    lemma PlainCallsWhenEncrypting(pwd: Option<Pwd>, text: string, signingPrv: Option<PrvKey>, w: World, env: Env)
      requires TokenStepPasses(pwd, w) && UploadStepPasses(pwd, w) && Proceeds(Decision(w, env))
      ensures var input := EncryptArgs(text, pwd, signingPrv, w, env);
        PlainCalls(pwd, text, signingPrv, w, env)
          == TokenCalls(pwd, w) + LinkCalls(pwd, w) + [Encrypt(input)] + DeliveryCalls(pwd, env.encrypt(input), w)
    {
      AppendAssoc(TokenCalls(pwd, w), LinkCalls(pwd, w), EncryptPlainCalls(pwd, text, signingPrv, w, env));
    }

    /** Otherwise the branch's trace holds no encryption at all. */
    lemma PlainCallsWithoutEncrypting(pwd: Option<Pwd>, text: string, signingPrv: Option<PrvKey>, w: World, env: Env)
      requires !(TokenStepPasses(pwd, w) && UploadStepPasses(pwd, w) && Proceeds(Decision(w, env)))
      ensures NoEncrypt(PlainCalls(pwd, text, signingPrv, w, env))
    {
      StepsBeforeEncryptionDoNotEncrypt(pwd, w);
      if TokenStepPasses(pwd, w) {
        assert PlainCalls(pwd, text, signingPrv, w, env) == TokenCalls(pwd, w) + LinkCalls(pwd, w);
      } else {
        assert PlainCalls(pwd, text, signingPrv, w, env) == TokenCalls(pwd, w);
      }
    }

    /** An auth error on the token request cancels the send before anything is collected, uploaded or encrypted. */
    lemma AuthErrorCancelsBeforeEncrypting(newMsg: NewMsgData, text: string, signingPrv: Option<PrvKey>, w: World, env: Env)
      requires TokenWanted(newMsg.pwd, w.subscriptionActive, AuthInfo(w)) && w.tokenResponse == Err(AuthErr)
      ensures PlainResult(newMsg, text, signingPrv, w, env) == Err(ComposerResetBtnTrigger)
      ensures PlainCalls(newMsg.pwd, text, signingPrv, w, env) == [MessageToken]
    {
    }

    /**
     * When fewer files are confirmed than were presigned, the send fails with
     * the upload error: no link is added, no admin code is kept, and nothing
     * is encrypted.
     */
    lemma ConfirmMismatchFailsSend(newMsg: NewMsgData, text: string, signingPrv: Option<PrvKey>, w: World, env: Env)
      requires TokenStepPasses(newMsg.pwd, w) && newMsg.pwd.Some? && |w.encryptAtts| > 0
      requires w.presign.Ok? && w.s3Upload.Pass? && w.confirm.Ok? && !UploadConfirmed(w.confirm.value, |w.presign.value|)
      ensures PlainResult(newMsg, text, signingPrv, w, env) == Err(PlainError(UPLOAD_ERR_MSG))
      ensures LinkSuffix(newMsg.pwd, w, env) == "" && LinkAdminCodes(newMsg.pwd, w) == []
      ensures PlainCalls(newMsg.pwd, text, signingPrv, w, env) == TokenCalls(newMsg.pwd, w) + [CollectEncryptAtts] + UploadCalls(w)
      ensures UploadCalls(w)[|UploadCalls(w)| - 1] == ConfirmFiles(ItemKeys(UploadItems(w.presign.value, w.encryptAtts)))
    {
    }

    /**
     * The attachments are uploaded before the expiration policy is consulted:
     * a send that the policy aborts has already hosted and linked them, and
     * has encrypted nothing.
     */
    lemma UploadsBeforeExpiryAbort(newMsg: NewMsgData, text: string, signingPrv: Option<PrvKey>, w: World, env: Env)
      requires TokenStepPasses(newMsg.pwd, w) && Linked(newMsg.pwd, w) && !Proceeds(Decision(w, env))
      ensures PlainResult(newMsg, text, signingPrv, w, env) == Err(ComposerResetBtnTrigger)
      ensures PlainCalls(newMsg.pwd, text, signingPrv, w, env) == TokenCalls(newMsg.pwd, w) + [CollectEncryptAtts] + UploadCalls(w)
      ensures LinkAdminCodes(newMsg.pwd, w) == w.confirm.value.adminCodes
    {
    }

    /** A failed message upload fails the send after the one encryption, with no admin codes stored. */
    lemma MessageUploadErrorAfterEncrypting(newMsg: NewMsgData, text: string, signingPrv: Option<PrvKey>, w: World, env: Env)
      requires TokenStepPasses(newMsg.pwd, w) && UploadStepPasses(newMsg.pwd, w) && Proceeds(Decision(w, env))
      requires newMsg.pwd.Some? && w.msgUpload.Err?
      ensures PlainResult(newMsg, text, signingPrv, w, env) == Err(Backend(w.msgUpload.error))
      ensures var input := EncryptArgs(text, newMsg.pwd, signingPrv, w, env);
        PlainCalls(newMsg.pwd, text, signingPrv, w, env)
          == TokenCalls(newMsg.pwd, w) + LinkCalls(newMsg.pwd, w) + [Encrypt(input), MessageUpload(env.encrypt(input))]
    {
    }

    /**
     * The send succeeds exactly when every step passes; the message then carries
     * the summary or the ciphertext of the final text, and the attachments that
     * go out for that case.
     */
    lemma PlainSucceedsExactly(newMsg: NewMsgData, text: string, signingPrv: Option<PrvKey>, w: World, env: Env)
      ensures var r := PlainResult(newMsg, text, signingPrv, w, env);
        && (r.Ok? <==>
              TokenStepPasses(newMsg.pwd, w) && UploadStepPasses(newMsg.pwd, w) && Proceeds(Decision(w, env))
              && (newMsg.pwd.Some? ==> w.msgUpload.Ok?))
        && (r.Ok? ==>
              var cipher := env.encrypt(EncryptArgs(text, newMsg.pwd, signingPrv, w, env));
              && r.value.body == PlainBody(newMsg.pwd, cipher, w, env)
              && r.value.atts == OutgoingPlainAtts(newMsg.pwd, |armoredPubkeys|, w.encryptAtts, cipher)
              && r.value.rootType == None)
    {
    }

    /**
     * The PGP/Inline branch after the reply-token step: collect and link the
     * attachments, then encrypt the final plain text once and deliver it.
     */
    method LinkAndEncryptPlain(newMsg: NewMsgData, signingPrv: Option<PrvKey>, authInfo: Option<FcAuth>, w: World, env: Env)
      returns (r: Result<MsgObj, SendErr>)
      requires TokenStepPasses(newMsg.pwd, w)
      modifies this`fcAdminCodes, this`calls, newMsg`plaintext
      ensures newMsg.plaintext == old(newMsg.plaintext) + LinkSuffix(newMsg.pwd, w, env)
      ensures fcAdminCodes == old(fcAdminCodes) + LinkAdminCodes(newMsg.pwd, w)
      ensures r == PlainResult(newMsg, newMsg.plaintext, signingPrv, w, env)
      ensures calls == old(calls) + LinkPlainCalls(newMsg.pwd, newMsg.plaintext, signingPrv, w, env)
    {
      ghost var c0 := calls;
      var atts := CollectAndLinkAtts(newMsg, authInfo, w, env);
      if atts.Err? {
        return Err(atts.error);
      }
      r := EncryptAndFormatPlain(newMsg, atts.value, signingPrv, authInfo, w, env);
      assert OutgoingPlainAtts(newMsg.pwd, |armoredPubkeys|, atts.value, env.encrypt(EncryptArgs(newMsg.plaintext, newMsg.pwd, signingPrv, w, env)))
          == OutgoingPlainAtts(newMsg.pwd, |armoredPubkeys|, w.encryptAtts, env.encrypt(EncryptArgs(newMsg.plaintext, newMsg.pwd, signingPrv, w, env)));
      AppendAssoc(c0, LinkCalls(newMsg.pwd, w), EncryptPlainCalls(newMsg.pwd, newMsg.plaintext, signingPrv, w, env));
    }

    /**
     * The PGP/Inline branch of `sendableMsg`. Every change to the body (reply
     * marker, then attachment links, which need the urls the upload assigns)
     * happens before the one encryption call, which receives the final text.
     */
    method SendPlain(newMsg: NewMsgData, signingPrv: Option<PrvKey>, w: World, env: Env)
      returns (r: Result<MsgObj, SendErr>)
      modifies this`fcAdminCodes, this`calls, newMsg`plaintext, newMsg`plainhtml
      ensures newMsg.plaintext == old(newMsg.plaintext)
        + TokenSuffix("\n\n", env, old(newMsg.Snapshot()), acctEmail, w)
        + (if TokenStepPasses(newMsg.pwd, w) then LinkSuffix(newMsg.pwd, w, env) else "")
      ensures newMsg.plainhtml == old(newMsg.plainhtml) + TokenSuffix("<br /><br />", env, old(newMsg.Snapshot()), acctEmail, w)
      ensures fcAdminCodes == old(fcAdminCodes) + (if TokenStepPasses(newMsg.pwd, w) then LinkAdminCodes(newMsg.pwd, w) else [])
      ensures r == PlainResult(newMsg, newMsg.plaintext, signingPrv, w, env)
      ensures calls == old(calls) + PlainCalls(newMsg.pwd, newMsg.plaintext, signingPrv, w, env)
    {
      ghost var c0, p0, snap := calls, newMsg.plaintext, newMsg.Snapshot();
      var authInfo := AuthInfo(w);
      var token := AddReplyTokenToMsgBodyIfNeeded(authInfo, newMsg, w.subscriptionActive, w.tokenResponse, env);
      if token.Fail? {
        assert !TokenStepPasses(newMsg.pwd, w) && !TokenAppended(newMsg.pwd, w);
        return Err(token.error);
      }
      assert TokenStepPasses(newMsg.pwd, w);
      assert newMsg.plaintext == p0 + TokenSuffix("\n\n", env, snap, acctEmail, w);
      assert calls == c0 + TokenCalls(newMsg.pwd, w);
      r := LinkAndEncryptPlain(newMsg, signingPrv, authInfo, w, env);
      AppendAssoc(c0, TokenCalls(newMsg.pwd, w), LinkPlainCalls(newMsg.pwd, newMsg.plaintext, signingPrv, w, env));
    }

    /**
     * `sendableMsg`: PGP/Inline for plain text, PGP/MIME for rich text. The
     * admin codes only ever grow; a rich-text draft is never modified.
     */
    method SendableMsg(newMsg: NewMsgData, signingPrv: Option<PrvKey>, w: World, env: Env)
      returns (r: Result<MsgObj, SendErr>)
      modifies this`fcAdminCodes, this`calls, newMsg`plaintext, newMsg`plainhtml
      ensures old(fcAdminCodes) <= fcAdminCodes
      ensures richText ==> unchanged(newMsg) && fcAdminCodes == old(fcAdminCodes)
      ensures richText && newMsg.pwd.Some? ==> r == Err(ComposerUserError(RICH_TEXT_PWD_MSG)) && calls == old(calls)
      ensures richText && newMsg.pwd.None? ==>
        var input := EncryptArgs(MimeDoc(newMsg, w, env), None, signingPrv, w, env);
        && (Proceeds(Decision(w, env)) ==>
              && r == Ok(MsgObj(acctEmail, newMsg.sender, newMsg.recipients, newMsg.subject, map[],
                                PgpMimeAtts(env.encrypt(input)), threadId, Some(pgpMimeRootType)))
              && calls == old(calls) + [CollectAtts, Encrypt(input)])
        && (!Proceeds(Decision(w, env)) ==> r == Err(ComposerResetBtnTrigger) && calls == old(calls) + [CollectAtts])
      ensures !richText ==>
        newMsg.plaintext == old(newMsg.plaintext)
          + TokenSuffix("\n\n", env, old(newMsg.Snapshot()), acctEmail, w)
          + (if TokenStepPasses(newMsg.pwd, w) then LinkSuffix(newMsg.pwd, w, env) else "")
      ensures !richText ==>
        newMsg.plainhtml == old(newMsg.plainhtml) + TokenSuffix("<br /><br />", env, old(newMsg.Snapshot()), acctEmail, w)
      ensures !richText ==>
        fcAdminCodes == old(fcAdminCodes) + (if TokenStepPasses(newMsg.pwd, w) then LinkAdminCodes(newMsg.pwd, w) else [])
      ensures !richText ==> r == PlainResult(newMsg, newMsg.plaintext, signingPrv, w, env)
      ensures !richText ==> calls == old(calls) + PlainCalls(newMsg.pwd, newMsg.plaintext, signingPrv, w, env)
      ensures old(calls) <= calls
    {
      if !richText {
        r := SendPlain(newMsg, signingPrv, w, env);
      } else {
        r := SendRich(newMsg, signingPrv, w, env);
      }
    }
  }
}
