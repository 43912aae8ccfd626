/**
 * The link lines appended to a password-protected plain message for each hosted
 * attachment. Their shape is read back by a separate parser, so it is fixed.
 */
module FileLinks {
  import opened Wrappers
  import opened JsText
  import opened FormatterTypes

  const BYTES_PER_MB: nat := 1024 * 1024

  /**
   * `Math.round(length / 2^20 * 10)` on integers: the size in tenths of a MB,
   * rounded half up.
   */
  function RoundedTenths(length: nat): (t: nat)
    ensures t * BYTES_PER_MB <= 10 * length + BYTES_PER_MB / 2
    ensures 10 * length < t * BYTES_PER_MB + BYTES_PER_MB / 2
  {
    var t := (20 * length + BYTES_PER_MB) / (2 * BYTES_PER_MB);
    assert t * (2 * BYTES_PER_MB) <= 20 * length + BYTES_PER_MB < t * (2 * BYTES_PER_MB) + 2 * BYTES_PER_MB;
    t
  }

  /** `String(t / 10)` for a whole number of tenths: no fraction when it is a whole number. */
  function TenthsString(t: nat): string
  {
    DecimalString(t / 10) + (if t % 10 == 0 then "" else "." + [DigitChar(t % 10)])
  }

  /** The size suffix: empty under 0.1 MB, otherwise a space, the rounded size and "MB". */
  function SizeText(length: nat): string
  {
    if 10 * length < BYTES_PER_MB then "" else " " + TenthsString(RoundedTenths(length)) + "MB"
  }

  /** A shown size is never "0": from 0.1 MB on, the rounded size is at least one tenth. */
  lemma SizeShownIsAtLeastOneTenth(length: nat)
    ensures SizeText(length) != "" <==> 10 * length >= BYTES_PER_MB
    ensures SizeText(length) != "" ==> RoundedTenths(length) >= 1
  {
  }

  /** `${att.url}` in a template literal: an unset url prints as "undefined". */
  function UrlText(url: Option<string>): string
  {
    match url
    case Some(u) => u
    case None => "undefined"
  }

  const TEXT_OPEN: string := "Att: "
  const TYPE_OPEN: string := " ("
  const TYPE_CLOSE: string := ")"

  function LinkText(att: Att): string
  {
    TEXT_OPEN + att.name + TYPE_OPEN + att.mimeType + TYPE_CLOSE + SizeText(att.length)
  }

  /** The data attribute of a link: the encoded size, type and name. */
  function FcData(att: Att, encode: AttrData -> string): string
  {
    encode(FileData(att.length, att.mimeType, att.name))
  }

  const LINK_OPEN: string := "<a href=\""
  const LINK_DATA: string := "\" class=\"cryptup_file\" cryptup-data=\""
  const LINK_TEXT: string := "\">"
  const LINK_CLOSE: string := "</a>\n"

  function LinkLine(att: Att, encode: AttrData -> string): string
  {
    LINK_OPEN + UrlText(att.url) + LINK_DATA + FcData(att, encode) + LINK_TEXT + LinkText(att) + LINK_CLOSE
  }

  /** The link lines of all attachments, in attachment order. */
  function LinkLines(atts: seq<Att>, encode: AttrData -> string): string
  {
    ConcatMap(atts, att => LinkLine(att, encode))
  }

  /** The lines of two lists of attachments are the lines of each, one after the other. */
  lemma LinkLinesAppend(a: seq<Att>, b: seq<Att>, encode: AttrData -> string)
    ensures LinkLines(a + b, encode) == LinkLines(a, encode) + LinkLines(b, encode)
  {
    ConcatMapAppend(a, b, att => LinkLine(att, encode));
  }

  /** The first line belongs to the first attachment. */
  lemma LinkLinesFirst(atts: seq<Att>, encode: AttrData -> string)
    requires atts != []
    ensures LinkLines(atts, encode) == LinkLine(atts[0], encode) + LinkLines(atts[1..], encode)
  {
    assert atts == [atts[0]] + atts[1..];
    LinkLinesAppend([atts[0]], atts[1..], encode);
    assert [atts[0]][..0] == [];
    assert LinkLines([atts[0]], encode) == LinkLines([], encode) + LinkLine(atts[0], encode);
  }

  /** Each line is a link to the hosted url whose text names the file and its type. */
  lemma LinkLineShape(att: Att, url: string, encode: AttrData -> string)
    requires att.url == Some(url)
    ensures LinkLine(att, encode) ==
      "<a href=\"" + url + "\" class=\"cryptup_file\" cryptup-data=\"" + encode(FileData(att.length, att.mimeType, att.name)) + "\">"
      + "Att: " + att.name + " (" + att.mimeType + ")" + SizeText(att.length) + "</a>\n"
  {
  }

  /** 150000 bytes (0.143 MB) are shown as 0.1MB. */
  lemma ReportSize()
    ensures SizeText(150000) == " 0.1MB"
  {
    assert RoundedTenths(150000) == 1;
    assert TenthsString(1) == "0.1" by {
      assert DecimalString(0) == "0";
      assert DigitChar(1) == '1';
    }
  }

  /**
   * `addUploadedFileLinksToMsgBody`: two line breaks, then one link line per
   * attachment, accumulated in a loop.
   */
  method AddUploadedFileLinksToMsgBody(plaintext: string, atts: array<Att>, encode: AttrData -> string)
    returns (r: string)
    ensures r == plaintext + "\n\n" + LinkLines(atts[..], encode)
  {
    r := plaintext + "\n\n";
    for i := 0 to atts.Length
      invariant r == plaintext + "\n\n" + LinkLines(atts[..i], encode)
    {
      assert atts[..i + 1][..i] == atts[..i];
      assert LinkLines(atts[..i + 1], encode) == LinkLines(atts[..i], encode) + LinkLine(atts[i], encode);
      var head, done, line := plaintext + "\n\n", LinkLines(atts[..i], encode), LinkLine(atts[i], encode);
      AppendAssoc(head, done, line);
      r := r + line;
    }
    assert atts[..atts.Length] == atts[..];
  }
}
