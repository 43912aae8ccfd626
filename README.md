# FlowCrypt encrypted-message formatter and key-creation checks, in Dafny

This project models two parts of the FlowCrypt browser extension (cryptup-chrome)
and proves properties of the model.

**`EncryptedMsgMailFormatter`** turns a draft into a sendable encrypted message.
Plain-text drafts go out as PGP/Inline. Rich-text drafts go out as PGP/MIME,
following section 4 of RFC 3156. On the way the formatter does four things:

- With a password, it may append a hidden reply marker that carries a one-use token.
- With a password, it hosts the attachments and links them from the body.
- It applies the expired-public-key policy before the single encryption call.
- For password-protected messages, it hosts the ciphertext and replaces the body with a link summary.

The formatter is a `class`:

- Its never-cleared list of attachment admin codes is a field.
- A ghost field `calls` records, in order, the external calls whose order the program relies on (:48, :51): the token request, the attachment collection, presign, S3 upload, confirm, encrypt, message upload and admin-code storage. It does not record the storage reads (`storageGetSubscription` at :40, `Store.authInfo` at :43, `Store.getAcct` at :187), the key reads, `storageContactUpdate` (:53) or the dialogs.
- The draft (`NewMsgData`) is a class whose two bodies are updated in place.
- The collected attachments are an `array` whose `url`s the upload assigns in place.

Everything outside the formatter is a parameter:

- `World` holds, for one send attempt, what the backend, storage, clock and dialogs answer.
- `Env` holds the library functions as total functions: HTML-attribute encoding, the marker element, the key reader, encryption, MIME encoding, XSS escaping and the language tables.

**`SetupCreateKeyModule`** checks the manual key-creation form.
It refuses an empty pass phrase, then a weak one, then two entries that differ, each with its own warning.
It then shows the pass phrase on a "sticky note", masked when pass phrases are to be hidden, and the user confirms.
The masking follows JavaScript `substring`: indices are clamped, then swapped when reversed. Indices count characters (Unicode scalar values), not UTF-16 code units; see "## Left out".
The key-creation handler goes on only after a confirmed validation.
This part is pure and is modelled with functions and lemmas.

Files:

- `wrappers.dfy`: `Option`, `Result`, `Outcome`.
- `js_text.dfy`: `substring`, number printing, `join`, string accumulation.
- `expiry.dfy`: the expired-key policy, as a reference function and as the looping routine.
- `formatter_types.dfy`: records, errors, `World`, `Env`, the call trace.
- `file_links.dfy`: the attachment link lines.
- `reply_token.dfy`: the reply marker.
- `pwd_delivery.dfy`: the password-delivery summary.
- `formatter.dfy`: the two classes.
- `setup_create_key.dfy`: the key-creation form.

In these places the code does something other than a reader of its method names and comments might expect. The model follows the code:

- **Attachments are uploaded before the expiry check.** `uploadAttsToFc` (:48) runs before `encryptData` (:51), which runs the expiry check. A send aborted because the sender's own key expired has therefore already uploaded its attachments. `UploadsBeforeExpiryAbort` states this trace.
- **The reply marker's recipients are not deduplicated.** Only every occurrence of the sender and of the account address is removed (:94). Other addresses keep their multiplicity.
- **The marker's `subject` field holds the whole draft object** (:95), not its subject line.
- **The expiry check uses `Math.max` of the expiries** (:157). The early "no override" return therefore fires as soon as any expiring key is still valid.
- **Fewer presign approvals than attachments make the url loop throw.** At :124-126 the loop reads `approvals[i]` past the end and throws a `TypeError`, after the urls with an approval have been assigned. The model returns `TypeError` with exactly those urls set.

## Model

| member | source | states |
|---|---|---|
| Formatter.EncryptedMsgMailFormatter.SendableMsg | extension/js/common/composer/formatters/encrypted-mail-msg-formatter.ts:39-75 | The admin codes only grow and the trace only grows. A rich-text draft is never modified. Rich text with a password is refused with `ComposerUserError` before collecting attachments or encrypting, with no recorded call. Otherwise a rich draft succeeds iff the expiry policy proceeds. Its message then has an empty body, the PGP/MIME root type and the two RFC 3156 parts, and the trace is collect, then one `Encrypt` of the MIME document. A plain draft gets all of `SendPlain`'s guarantees: the new plain text and HTML, the admin codes, the outcome `PlainResult` (with each failing step's own error) and the trace `PlainCalls`. |
| Formatter.EncryptedMsgMailFormatter.SendPlain | extension/js/common/composer/formatters/encrypted-mail-msg-formatter.ts:42-60 | The plain text gains the reply marker, then, once the token step passes, the file links; the HTML gains only the marker; the admin codes grow only by the confirmed upload's codes. The outcome is `PlainResult` of the final plain text: the token step's error, else the upload's error, else an expiry abort, else a message-upload error, else the message. The trace is `PlainCalls`: token request, collect and uploads, and, only when those pass and the policy proceeds, one `Encrypt` of the final text followed by the delivery. The lemmas below state what these two functions mean. |
| Formatter.EncryptedMsgMailFormatter.CollectAttsForEncryption | extension/js/common/composer/formatters/encrypted-mail-msg-formatter.ts:45 | A fresh array holding the collected attachments, recorded as one call. |
| Formatter.EncryptedMsgMailFormatter.HostAndLinkAtts | extension/js/common/composer/formatters/encrypted-mail-msg-formatter.ts:46-50 | It succeeds iff the upload does, and the trace is presign, S3 upload and confirm, each only once the previous one passed. Then the array holds the hosted urls, the body gains exactly the links built from those urls, and the upload's admin codes are appended. On failure the error is the backend's for the failing call, the upload error for a short confirmation, or `TypeError` for too few approvals, and neither the body nor the codes change. |
| Formatter.EncryptedMsgMailFormatter.CollectAndLinkAtts | extension/js/common/composer/formatters/encrypted-mail-msg-formatter.ts:45-50 | It uploads and links only with a password and at least one attachment, and the trace is the collection followed by exactly that upload's calls. It fails exactly when that upload fails, with the upload's own error (`UploadError`), and the body and the codes then stay unchanged. Otherwise it returns the collected attachments, with their urls when hosted, and the body and the codes gain the links and the confirmed codes. |
| Formatter.EncryptedMsgMailFormatter.EncryptAndFormatPlain | extension/js/common/composer/formatters/encrypted-mail-msg-formatter.ts:51-60 | On an expiry abort: `ComposerResetBtnTrigger` with no call. Otherwise one `Encrypt` of the final plain text, then the delivery calls: with a password the message upload, and the admin-code storage only when that upload succeeds. A failed message upload gives the backend's error. Otherwise the message has the draft's header fields, the body `PlainBody` and the attachments `OutgoingPlainAtts`. |
| Formatter.EncryptedMsgMailFormatter.LinkAndEncryptPlain | extension/js/common/composer/formatters/encrypted-mail-msg-formatter.ts:45-60 | After a passing token step: the body gains the links and the codes the confirmed codes, the outcome is `PlainResult` of the final text, and the trace is the attachment step's calls followed, when it passes, by the encryption step's. |
| Formatter.EncryptedMsgMailFormatter.DeliverPlain | extension/js/common/composer/formatters/encrypted-mail-msg-formatter.ts:52-59 | Without a password the body is the ciphertext, the attachments are the collected ones and nothing is called. With one, the ciphertext is uploaded, a message-upload error is passed on, and otherwise the body is the link summary and the attachments are `OutgoingPlainAtts`. |
| Formatter.StepsBeforeEncryptionDoNotEncrypt | extension/js/common/composer/formatters/encrypted-mail-msg-formatter.ts:43-50 | Neither the token step nor the attachment step calls `encrypt`. |
| Formatter.OnlyEncryptionAt | extension/js/common/composer/formatters/encrypted-mail-msg-formatter.ts:51 | In steps, then one encryption, then a rest with no encryption, the only encryption sits right after the steps. |
| Formatter.EncryptedMsgMailFormatter.PlainEncryptsOnceAfterBodyChanges | extension/js/common/composer/formatters/encrypted-mail-msg-formatter.ts:42-60 | The branch calls `encrypt` iff the token and upload steps pass and the policy proceeds. Any `Encrypt` in the trace is the only one, comes right after every call of the token and attachment steps, and receives the final plain text. |
| Formatter.EncryptedMsgMailFormatter.PlainCallsWhenEncrypting | extension/js/common/composer/formatters/encrypted-mail-msg-formatter.ts:42-59 | When every step before encryption passes, the trace is those steps' calls, one `Encrypt`, then the delivery calls. |
| Formatter.EncryptedMsgMailFormatter.PlainCallsWithoutEncrypting | extension/js/common/composer/formatters/encrypted-mail-msg-formatter.ts:42-51 | Otherwise the trace holds no `Encrypt` at all. |
| Formatter.EncryptedMsgMailFormatter.AuthErrorCancelsBeforeEncrypting | extension/js/common/composer/formatters/encrypted-mail-msg-formatter.ts:43-44 | An auth error on the token request gives `ComposerResetBtnTrigger`, and the only call made is the token request. |
| Formatter.EncryptedMsgMailFormatter.ConfirmMismatchFailsSend | extension/js/common/composer/formatters/encrypted-mail-msg-formatter.ts:46-50 | When fewer files are confirmed than were presigned, the send fails with the upload error message, adds no link and keeps no admin code. The trace ends with the confirm call and holds no encryption. |
| Formatter.EncryptedMsgMailFormatter.UploadsBeforeExpiryAbort | extension/js/common/composer/formatters/encrypted-mail-msg-formatter.ts:46-51 | An expiry abort after a linked upload gives `ComposerResetBtnTrigger`. The trace already holds the whole upload, and the confirmed admin codes have been kept. |
| Formatter.EncryptedMsgMailFormatter.MessageUploadErrorAfterEncrypting | extension/js/common/composer/formatters/encrypted-mail-msg-formatter.ts:51-56 | A failed message upload gives the backend's error after exactly one `Encrypt` and the upload call, with no admin-code storage. |
| Formatter.EncryptedMsgMailFormatter.PlainSucceedsExactly | extension/js/common/composer/formatters/encrypted-mail-msg-formatter.ts:42-60 | The branch succeeds iff the token, upload and expiry steps and, with a password, the message upload all pass. The message then carries `PlainBody` of the ciphertext of the final text, the outgoing attachments and no root type. |
| Formatter.OutgoingPlainAttsCases | extension/js/common/composer/formatters/encrypted-mail-msg-formatter.ts:45-59 | Without a password the outgoing attachments are exactly the collected ones, in order. With a password there are none for a single pubkey, otherwise one `encrypted.asc` holding the ciphertext. |
| Formatter.EncryptedMsgMailFormatter.SendRich | extension/js/common/composer/formatters/encrypted-mail-msg-formatter.ts:61-74 | Refused with a password, with no call made. Otherwise the MIME document of both bodies, subject and attachments is encrypted once. The message is `{}` plus the version part then the `encrypted.asc` part, under the root type of section 4 of RFC 3156. An expiry abort happens after collecting and before encrypting. |
| Formatter.EncryptedMsgMailFormatter.EncryptData | extension/js/common/composer/formatters/encrypted-mail-msg-formatter.ts:77-80 | When the policy proceeds, exactly one encryption call, as of the date the policy chose. On an abort, `ComposerResetBtnTrigger` and no call. |
| Formatter.EncryptedMsgMailFormatter.AddReplyTokenToMsgBodyIfNeeded | extension/js/common/composer/formatters/encrypted-mail-msg-formatter.ts:82-111 | Without a password, an active subscription and credentials: nothing changes and no call is made. On success the plain text gains `"\n\n"` plus the marker and the HTML gains `"<br /><br />"` plus the marker. An auth error gives `ComposerResetBtnTrigger`. A `subscription` error passes with the body unchanged. Any other error is rewrapped with the exact message. |
| ReplyToken.ReplyRecipientsExclude | extension/js/common/composer/formatters/encrypted-mail-msg-formatter.ts:86-94 | The marker's recipients never include the sender or the account. Every other address appears exactly as often as among the draft's recipients. |
| ReplyToken.WithoutVal | extension/js/common/composer/formatters/encrypted-mail-msg-formatter.ts:94 | Removes every occurrence of the value and keeps every other element, with its multiplicity. |
| ReplyToken.WithoutValAppend | extension/js/common/composer/formatters/encrypted-mail-msg-formatter.ts:94 | Removal distributes over concatenation, drops a one-element list of the value and keeps any other one-element list. So the remaining elements keep their order. |
| ReplyToken.WithoutAbsentVal | extension/js/common/composer/formatters/encrypted-mail-msg-formatter.ts:94 | Removing a value that does not occur returns the list unchanged. |
| ReplyToken.AllRecipientsMembers | extension/js/common/composer/formatters/encrypted-mail-msg-formatter.ts:86 | An address is in the flattened list iff it is in one of the recipient groups. |
| Formatter.BuildUploadItems | extension/js/common/composer/formatters/encrypted-mail-msg-formatter.ts:115-118 | There is one item per approval. Item i has approval i's base url and key, and attachment i (none past the last attachment). |
| Formatter.EncryptedMsgMailFormatter.UploadAttsToFc | extension/js/common/composer/formatters/encrypted-mail-msg-formatter.ts:113-128 | The trace is presign, upload, then confirm. Any backend error, or a missing or wrong-length confirmation, fails with no url set and the admin codes unchanged. On success `atts[i].url == base_url_i + key_i` for every i, and the confirmed admin codes are appended in order. With fewer approvals than attachments it throws `TypeError` after setting the urls that have an approval. |
| FileLinks.AddUploadedFileLinksToMsgBody | extension/js/common/composer/formatters/encrypted-mail-msg-formatter.ts:130-141 | The result is the input, then `"\n\n"`, then one link line per attachment in attachment order (`LinkLines`). |
| FileLinks.LinkLinesAppend | extension/js/common/composer/formatters/encrypted-mail-msg-formatter.ts:132-139 | The lines of two attachment lists are the lines of the first list followed by those of the second. |
| FileLinks.LinkLinesFirst | extension/js/common/composer/formatters/encrypted-mail-msg-formatter.ts:132-139 | The first line is the first attachment's line. |
| FileLinks.LinkLineShape | extension/js/common/composer/formatters/encrypted-mail-msg-formatter.ts:133-138 | Each line is `<a href="URL" class="cryptup_file" cryptup-data="ENC">Att: NAME (TYPE)[ SIZE]</a>\n`, with the hosted url and the encoded size, type and name. |
| FileLinks.RoundedTenths | extension/js/common/composer/formatters/encrypted-mail-msg-formatter.ts:133-134 | The size in tenths of a MB is rounded to the nearest tenth: within half a tenth of `10 * length / 2^20`. |
| FileLinks.SizeShownIsAtLeastOneTenth | extension/js/common/composer/formatters/encrypted-mail-msg-formatter.ts:134 | The size suffix is present exactly when `length / 2^20 >= 0.1`. A shown size is then at least 0.1. |
| FileLinks.ReportSize | extension/js/common/composer/formatters/encrypted-mail-msg-formatter.ts:134 | 150000 bytes are shown as ` 0.1MB`. |
| JsText.DecimalString | extension/js/common/composer/formatters/encrypted-mail-msg-formatter.ts:134 | The printed whole part of the size is a non-empty run of digits with no leading zero. |
| JsText.DecimalRoundTrip | extension/js/common/composer/formatters/encrypted-mail-msg-formatter.ts:134 | Parsing the printed digits gives the number back. |
| Expiry.EncryptMsgAsOfDateIfSomeAreExpiredAndUserConfirmedModal | extension/js/common/composer/formatters/encrypted-mail-msg-formatter.ts:143-181 | The two arrays built in the loop, the own-key loop and the checks that follow give exactly the reference decision `AsOfDate` over the keys' facts. |
| Expiry.UsableFromIsCreationTimes | extension/js/common/composer/formatters/encrypted-mail-msg-formatter.ts:144-153 | `usableFrom` holds every key's creation time, in key order. |
| Expiry.UsableUntilIsExpiries | extension/js/common/composer/formatters/encrypted-mail-msg-formatter.ts:144-153 | `usableUntil` holds exactly the expiries of the keys that expire. |
| Expiry.MaxOf | extension/js/common/composer/formatters/encrypted-mail-msg-formatter.ts:157 | `Math.max` of a non-empty list is an element of it and at least every element. |
| Expiry.MinOf | extension/js/common/composer/formatters/encrypted-mail-msg-formatter.ts:172 | `Math.min` of a non-empty list is an element of it and at most every element. |
| Expiry.UntilFacts | extension/js/common/composer/formatters/encrypted-mail-msg-formatter.ts:154-157 | `usableUntil` is empty iff no key expires. Its maximum is at most `now` iff every expiring key has expired. |
| Expiry.OverlapFacts | extension/js/common/composer/formatters/encrypted-mail-msg-formatter.ts:171-173 | `max(usableFrom) <= min(usableUntil)` iff no key is created after any key expires. |
| Expiry.NoOverrideExactly | extension/js/common/composer/formatters/encrypted-mail-msg-formatter.ts:154-159 | Encryption is "as of now" exactly when no key expires or some expiring key is still valid. |
| Expiry.OwnKeyCheckedFirst | extension/js/common/composer/formatters/encrypted-mail-msg-formatter.ts:160-170 | Once every expiring key has expired, an expired own key aborts first, whatever the later checks would say. |
| Expiry.NoOverlapChecksSecond | extension/js/common/composer/formatters/encrypted-mail-msg-formatter.ts:171-176 | Otherwise, disjoint usable windows abort before the user is asked. |
| Expiry.DeclinedOnlyWhenAsked | extension/js/common/composer/formatters/encrypted-mail-msg-formatter.ts:177-179 | A refusal aborts, and the user is asked only when all earlier checks passed. |
| Expiry.EncryptAsOfExactly | extension/js/common/composer/formatters/encrypted-mail-msg-formatter.ts:154-180 | An override date is returned iff some key expires, all expiring keys have expired, no own key is expired, the windows overlap and the user confirmed. |
| Expiry.EncryptAsOfLatestCommonInstant | extension/js/common/composer/formatters/encrypted-mail-msg-formatter.ts:171-180 | The override date `min(usableUntil)` is at most `now`. Every key is usable at that date. It is the latest instant at which every key is usable. |
| Formatter.EncryptedMsgMailFormatter.UploadAndFormatPwdProtectedEmail | extension/js/common/composer/formatters/encrypted-mail-msg-formatter.ts:183-210 | The ciphertext is uploaded. The codes stored under `short` are `[admin_code]` followed by all accumulated codes. `text/plain` and `text/html` are overwritten with the summaries for `FC_WEB_URL + "/" + short`. An upload error is passed on and nothing is stored. |
| PwdDelivery.OutgoingLanguage | extension/js/common/composer/formatters/encrypted-mail-msg-formatter.ts:188 | The language is never empty. An absent or empty preference gives `EN`; a non-empty preference is kept. |
| PwdDelivery.IntroHtml | extension/js/common/composer/formatters/encrypted-mail-msg-formatter.ts:198 | The HTML intro has no line break left, and an intro without line breaks is unchanged. A one-character intro `"\n"` becomes `<br>`; any other one-character intro is kept. |
| PwdDelivery.IntroHtmlAppend | extension/js/common/composer/formatters/encrypted-mail-msg-formatter.ts:198 | The replacement distributes over concatenation. With the one-character case, every `'\n'` becomes `<br>` and every other character is kept in place. |
| PwdDelivery.IntroHtmlLength | extension/js/common/composer/formatters/encrypted-mail-msg-formatter.ts:198 | The HTML intro is three characters longer per line break, and otherwise the same length. |
| PwdDelivery.PlainSummaryShape | extension/js/common/composer/formatters/encrypted-mail-msg-formatter.ts:194-200 | The plain summary is `msgEncryptedText + url + "\n"`, preceded by `intro + "\n\n"` when there is an intro: the parts joined with `"\n"`. |
| PwdDelivery.HtmlSummaryShape | extension/js/common/composer/formatters/encrypted-mail-msg-formatter.ts:190-206 | The HTML summary is the replaceable block, preceded by the intro (line breaks turned into `<br>`) plus `<br><br>\n` when there is an intro. The intro part then has no line break. |
| JsText.Substring | extension/chrome/settings/setup/setup-create-key.ts:86 | `substring` never lengthens the string. It is the plain slice for in-range, ordered indices. |
| JsText.SubstringSymmetric | extension/chrome/settings/setup/setup-create-key.ts:86 | Swapping the two indices never changes the result. |
| JsText.Clamp | extension/chrome/settings/setup/setup-create-key.ts:86 | Indices below 0 become 0, those above the length become the length, and the others are kept. |
| SetupCreateKey.Starred | extension/chrome/settings/setup/setup-create-key.ts:86 | The replacement keeps the length and every space, and turns every other character into `*`. |
| SetupCreateKey.MaskLongPassPhrase | extension/chrome/settings/setup/setup-create-key.ts:86 | From four characters on, the masked text has the same length, the same first two and last two characters and the same middle spaces. Every other middle character becomes `*`. |
| SetupCreateKey.MaskShortPassPhrase | extension/chrome/settings/setup/setup-create-key.ts:86 | Below four characters, the masked text starts with the first `min(2, n)` characters and ends with the last `min(2, n)`. These cover the whole pass phrase. |
| SetupCreateKey.MaskThreeCharacters | extension/chrome/settings/setup/setup-create-key.ts:86 | `"abc"` is noted as `"ab*bc"`. |
| SetupCreateKey.NoteText | extension/chrome/settings/setup/setup-create-key.ts:84-87 | With hiding off, the text is the pass phrase verbatim. With it on, it is the masked text. |
| SetupCreateKey.StickyNote | extension/chrome/settings/setup/setup-create-key.ts:88-94 | The note is the fixed head, then the text, then the fixed tail. The text sits at the offset right after the head. |
| SetupCreateKey.NoteShowsPassPhrase | extension/chrome/settings/setup/setup-create-key.ts:84-95 | The prompted note contains the noted text at its fixed position. With hiding off, that is the first entry verbatim. |
| SetupCreateKey.IsCreatePrivateFormInputCorrect | extension/chrome/settings/setup/setup-create-key.ts:66-95 | The empty warning is given iff the first entry is empty. The weak warning iff it is non-empty and weak. The mismatch warning (second entry cleared and focused) iff non-empty, not weak and different. The note is prompted iff all three checks pass, and its answer is the confirm oracle's answer to that note. |
| SetupCreateKey.Validated | extension/chrome/settings/setup/setup-create-key.ts:66-95 | The validation is true iff all three checks pass and the user confirms the note. |
| SetupCreateKey.SecondEntryAfter | extension/chrome/settings/setup/setup-create-key.ts:79-82 | The second entry is emptied exactly when the mismatch warning is given, and is kept otherwise. |
| SetupCreateKey.EmptyCheckedFirst | extension/chrome/settings/setup/setup-create-key.ts:69-73 | With an empty first entry the outcome does not depend on the strength or on the second entry. |
| SetupCreateKey.WeakRefusedEvenIfMatching | extension/chrome/settings/setup/setup-create-key.ts:74-78 | A weak pass phrase is refused even when both entries agree. |
| SetupCreateKey.ActionCreateKeyHandler | extension/chrome/settings/setup/setup-create-key.ts:23-41 | The handler stops before creating or saving a key iff validation is false. Otherwise the key is created with the first entry, which equals the second, is non-empty and is not weak. |

## Left out

- OpenPGP work (reading armored keys, encryption, expiry dates, RSA-4096 key generation) is a set of parameters in `Env`. In particular a key that fails to parse is not modelled: `readKey` is total.
- The backend, S3, storage and dialogs are answers in `World`, fixed for one attempt. Their failure modes are the `ApiErr` values of the model. Upload progress rendering is not modelled.
- `Google.createMsgObj` is a record constructor (`MsgObj`). The Gmail side is not modelled.
- `Mime.encode`, `Xss.escape`, `Str.htmlAttrEncode`, `Ui.e` and the `Lang` tables are uninterpreted functions in `Env`.
- The attachment collectors (`collectEncryptAtts`, `collectAtts`), `encrypt`, `Mime.encode`, `storageAddAdminCodes` (:207) and the storage reads never fail in the model. Their exceptions, and the send failures they would cause, are not modelled.
- JsText.Substring, SetupCreateKey.Starred: pass phrases are modelled as sequences of Unicode scalar values, while JavaScript's `substring`, `length` and `/[^ ]/g` work on UTF-16 code units. A pass phrase with a character outside the Basic Multilingual Plane is therefore masked differently: JavaScript stars each half of a surrogate pair, or cuts the pair at the kept ends.
- `storageContactUpdate` (:53) is a side effect on the contact store with no bearing on the message, so it is not modelled.
- The send-button timer (:47), the rich-text toggle (:63), the error modals and the login popup are UI only and are not modelled.
- The `subscription` record is reduced to its `active` flag. `this.composer.urlParams.acctEmail` is taken to be the formatter's account address.
- The password's own type is not modelled: a present password is truthy. The intro is modelled as a string, with "no intro" as the empty string.
- `Att` objects are modelled as values in an array, so aliasing of an attachment between arrays is not modelled. Defaults of the `Att` constructor are not modelled.
- Sizes are shown with integer arithmetic. Floating-point display of very large sizes (exponent notation) is not modelled.
- `Settings.forbidAndRefreshPageIfCannot` (setup-create-key.ts:24) is not part of this model. It reloads the page when the organisation's rules forbid creating keys, which ends the handler before validation. The model assumes key creation is allowed.
- In the key-creation handler, the options object built from form fields, `createSaveKeyPair`, `preFinalizeSetup` and the redirect are not modelled. The advanced-settings toggle (:52-64) is DOM work and is not modelled either.
- The strength meter is a boolean input (`weak`), and `shouldPassPhraseBeHidden` is a boolean input (`hidePp`).
- extension/chrome/settings/modules/security.ts and extension/chrome/elements/reply_pubkey_mismatch.ts are not part of this model. They are DOM, storage and network glue.
- Asynchrony and concurrency are not modelled: each operation is one atomic step over its inputs.
