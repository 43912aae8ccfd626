/**
 * The summary that replaces the body of a password-protected message: the
 * recipient gets a link to the hosted ciphertext instead of the ciphertext.
 */
module PwdDelivery {
  import opened Wrappers
  import opened JsText
  import opened FormatterTypes

  /** `storage.outgoing_language || 'EN'`: an absent or empty preference means English. */
  function OutgoingLanguage(stored: Option<string>): (lang: string)
    ensures lang != ""
    ensures stored.Some? && stored.value != "" ==> lang == stored.value
    ensures stored.None? || stored.value == "" ==> lang == "EN"
  {
    if stored.Some? && stored.value != "" then stored.value else "EN"
  }

  /** The hosted message page. */
  function MsgUrl(webUrl: string, short: string): string
  {
    webUrl + "/" + short
  }

  /** `intro.replace(/\n/g, '<br>')` */
  function IntroHtml(intro: string): (r: string)
    ensures '\n' !in r
    ensures '\n' !in intro ==> r == intro
    ensures |intro| == 1 ==> r == (if intro[0] == '\n' then "<br>" else intro)
  {
    if intro == [] then []
    else
      var init, last := intro[..|intro| - 1], intro[|intro| - 1];
      assert intro == init + [last];
      IntroHtml(init) + (if last == '\n' then "<br>" else [last])
  }

  /** One more character: a line break adds `<br>`, any other character is kept. */
  lemma IntroHtmlSnoc(s: string, c: char)
    ensures IntroHtml(s + [c]) == IntroHtml(s) + (if c == '\n' then "<br>" else [c])
  {
    var t := s + [c];
    assert t[..|t| - 1] == s;
  }

  /** Each line break grows by three characters (`<br>` for `'\n'`); nothing else changes length. */
  lemma {:induction false} IntroHtmlLength(intro: string)
    ensures |IntroHtml(intro)| == |intro| + 3 * multiset(intro)['\n']
    decreases |intro|
  {
    if intro != [] {
      var init, last := intro[..|intro| - 1], intro[|intro| - 1];
      assert intro == init + [last];
      assert multiset(intro) == multiset(init) + multiset{last};
      IntroHtmlSnoc(init, last);
      IntroHtmlLength(init);
    }
  }

  /**
   * The replacement works character by character: the intro of a concatenation
   * is the concatenation of the intros, so, with the one-character case, every
   * `'\n'` becomes `<br>` and every other character is kept in its place.
   */
  lemma {:induction false} IntroHtmlAppend(a: string, b: string)
    ensures IntroHtml(a + b) == IntroHtml(a) + IntroHtml(b)
    decreases |b|
  {
    if b == [] {
      assert a + b == a;
    } else {
      var init, last := b[..|b| - 1], b[|b| - 1];
      var piece := if last == '\n' then "<br>" else [last];
      assert b == init + [last];
      assert a + b == (a + init) + [last];
      calc {
        IntroHtml(a + b);
      ==  { IntroHtmlSnoc(a + init, last); }
        IntroHtml(a + init) + piece;
      ==  { IntroHtmlAppend(a, init); }
        IntroHtml(a) + IntroHtml(init) + piece;
      ==  { IntroHtmlSnoc(init, last); }
        IntroHtml(a) + IntroHtml(b);
      }
    }
  }

  /** The lines of the plain-text summary: the intro (if any), then the sentence with the link. */
  function TextParts(env: Env, intro: string, lang: string, url: string): seq<string>
  {
    (if intro != "" then [intro + "\n"] else []) + [env.msgEncryptedText(lang) + url + "\n"]
  }

  function PlainSummary(env: Env, intro: string, lang: string, url: string): string
  {
    Join(TextParts(env, intro, lang, url), "\n")
  }

  /** The plain summary ends with the link and a line break, preceded by the intro and a blank line when there is one. */
  lemma PlainSummaryShape(env: Env, intro: string, lang: string, url: string)
    ensures intro == "" ==> PlainSummary(env, intro, lang, url) == env.msgEncryptedText(lang) + url + "\n"
    ensures intro != "" ==> PlainSummary(env, intro, lang, url) == intro + "\n\n" + env.msgEncryptedText(lang) + url + "\n"
  {
    JoinOneOrTwo(intro + "\n", env.msgEncryptedText(lang) + url + "\n", "\n");
  }

  const BUTTON_OPEN: string := "<a href=\""
  const BUTTON_STYLE: string := "\" style=\"padding: 2px 6px; background: #2199e8; color: #fff; display: inline-block; text-decoration: none;\">\n                    "
  const BUTTON_CLOSE: string := "\n                   </a>"
  const BLOCK_OPEN: string := "\n                <div class=\"cryptup_encrypted_message_replaceable\">\n                    <div style=\"opacity: 0;\">"
  const BLOCK_ARMOR_END: string := "</div>\n                    "
  const BLOCK_BUTTON_END: string := "<br/><br/>\n                    "
  const BLOCK_CLOSE: string := "<br/><br/><br/>\n                </div>"

  /** The styled "open message" button. */
  function OpenMsgButton(env: Env, lang: string, url: string): string
  {
    BUTTON_OPEN + env.xssEscape(url) + BUTTON_STYLE + env.openMsg(lang) + BUTTON_CLOSE
  }

  /** The replaceable HTML block: an invisible armor header, the button, and the link to copy. */
  function HtmlBlock(env: Env, lang: string, url: string): string
  {
    BLOCK_OPEN + env.armorBeginNull + BLOCK_ARMOR_END
      + env.msgEncryptedHtml(lang) + OpenMsgButton(env, lang, url) + BLOCK_BUTTON_END
      + env.alternativelyCopyPaste(lang) + env.xssEscape(url) + BLOCK_CLOSE
  }

  function HtmlParts(env: Env, intro: string, lang: string, url: string): seq<string>
  {
    (if intro != "" then [IntroHtml(intro) + "<br><br>"] else []) + [HtmlBlock(env, lang, url)]
  }

  function HtmlSummary(env: Env, intro: string, lang: string, url: string): string
  {
    Join(HtmlParts(env, intro, lang, url), "\n")
  }

  /** The HTML summary is the block, preceded by the intro with its line breaks turned into tags. */
  lemma HtmlSummaryShape(env: Env, intro: string, lang: string, url: string)
    ensures intro == "" ==> HtmlSummary(env, intro, lang, url) == HtmlBlock(env, lang, url)
    ensures intro != "" ==> HtmlSummary(env, intro, lang, url) == IntroHtml(intro) + "<br><br>\n" + HtmlBlock(env, lang, url)
    ensures intro != "" ==> '\n' !in IntroHtml(intro)
  {
    JoinOneOrTwo(IntroHtml(intro) + "<br><br>", HtmlBlock(env, lang, url), "\n");
  }
}
