/**
 * `SetupCreateKeyModule`: the checks on the manual key-creation form, the
 * pass-phrase "sticky note" the user is asked to confirm, and the handler that
 * only goes on to create a key once those checks pass.
 */
module SetupCreateKey {
  import opened Wrappers
  import opened JsText

  const EMPTY_WARNING: string := "Pass phrase is needed to protect your private email. Please enter a pass phrase."
  const WEAK_WARNING: string := "Pass phrase is not strong enough. Please make it stronger, by adding a few words."
  const MISMATCH_WARNING: string := "The pass phrases do not match. Please try again."

  const NOTE_HEAD: string := "\n      <div style=\"font-size: 1.2em\">\n        Please write down your pass phrase and store it in safe place or even two.\n        It is needed in order to access your FlowCrypt account.\n      </div>\n      <div class=\"passphrase-sticky-note\">"
  const NOTE_TAIL: string := "</div>\n    "

  /**
   * What the form holds when "create" is pressed: both pass-phrase entries and
   * whether the strength meter has greyed out the create button.
   */
  datatype Form = Form(password1: string, password2: string, weak: bool)

  /** The entry that receives focus after a warning. */
  datatype Entry = FirstEntry | SecondEntry

  /**
   * How validation ends: a warning (with the entry focused, and whether the
   * second entry was emptied), or the sticky-note prompt with the user's answer.
   */
  datatype Verdict =
    | Warned(message: string, focus: Entry, secondCleared: bool)
    | Prompted(note: string, answer: bool)

  /** `.replace(/[^ ]/g, '*')`: every character other than a space becomes a star. */
  function Starred(s: string): (r: string)
    ensures |r| == |s|
    ensures forall i :: 0 <= i < |s| ==> r[i] == (if s[i] == ' ' then ' ' else '*')
  {
    seq(|s|, i requires 0 <= i < |s| => if s[i] == ' ' then ' ' else '*')
  }

  /** The masking expression: first two characters, the starred middle, last two characters, each cut with `substring`. */
  function MaskPassPhrase(pp: string): string
  {
    Substring(pp, 0, 2) + Starred(Substring(pp, 2, |pp| - 2)) + Substring(pp, |pp| - 2, |pp|)
  }

  /**
   * From four characters on, the mask keeps the length, the first two and the
   * last two characters and every middle space, and stars every other middle
   * character.
   */
  lemma MaskLongPassPhrase(pp: string)
    requires |pp| >= 4
    ensures var m := MaskPassPhrase(pp);
      && |m| == |pp|
      && m[..2] == pp[..2]
      && m[|pp| - 2..] == pp[|pp| - 2..]
      && forall i :: 2 <= i < |pp| - 2 ==> m[i] == (if pp[i] == ' ' then ' ' else '*')
  {
    var head, mid, tail := Substring(pp, 0, 2), Substring(pp, 2, |pp| - 2), Substring(pp, |pp| - 2, |pp|);
    assert head == pp[..2] && mid == pp[2..|pp| - 2] && tail == pp[|pp| - 2..];
    var m := MaskPassPhrase(pp);
    assert m == head + Starred(mid) + tail;
    forall i | 2 <= i < |pp| - 2
      ensures m[i] == (if pp[i] == ' ' then ' ' else '*')
    {
      assert m[i] == Starred(mid)[i - 2];
      assert mid[i - 2] == pp[i];
    }
    assert m[..2] == head;
    assert m[|pp| - 2..] == tail;
  }

  /**
   * Below four characters the two kept ends overlap, so every character of
   * the pass phrase is shown in clear: the note starts with its first
   * `min(2, n)` characters and ends with its last `min(2, n)`.
   */
  lemma MaskShortPassPhrase(pp: string)
    requires |pp| < 4
    ensures var m, k := MaskPassPhrase(pp), Min(2, |pp|);
      && |m| >= 2 * k
      && m[..k] == pp[..k]
      && m[|m| - k..] == pp[|pp| - k..]
      && |pp| - k <= k
  {
    var k := Min(2, |pp|);
    var head, mid, tail := Substring(pp, 0, 2), Substring(pp, 2, |pp| - 2), Substring(pp, |pp| - 2, |pp|);
    assert head == pp[..k];
    assert tail == pp[|pp| - k..];
    var m := MaskPassPhrase(pp);
    assert m == head + Starred(mid) + tail;
    assert m[..k] == head;
    assert m[|m| - k..] == tail;
  }

  /** `"abc".substring(2, 1)` swaps its arguments and gives `"b"`, and `"abc".substring(1, 3)` is `"bc"`, so `"abc"` is noted as `"ab*bc"`. */
  lemma MaskThreeCharacters()
    ensures MaskPassPhrase("abc") == "ab*bc"
  {
    assert Substring("abc", 0, 2) == "ab";
    assert Substring("abc", 2, 1) == "b";
    assert Substring("abc", 1, 3) == "bc";
    assert Starred("b") == "*";
  }

  /** The text written on the note: the pass phrase, masked when pass phrases are to be hidden. */
  function NoteText(pp: string, hidePp: bool): (t: string)
    ensures !hidePp ==> t == pp
    ensures hidePp ==> t == MaskPassPhrase(pp)
  {
    if hidePp then MaskPassPhrase(pp) else pp
  }

  /** The paper-note dialog content. */
  function StickyNote(notePp: string): (note: string)
    ensures |note| == |NOTE_HEAD| + |notePp| + |NOTE_TAIL|
    ensures note[|NOTE_HEAD|..|NOTE_HEAD| + |notePp|] == notePp
  {
    var note := NOTE_HEAD + notePp + NOTE_TAIL;
    assert note[|NOTE_HEAD|..|NOTE_HEAD| + |notePp|] == notePp;
    note
  }

  /**
   * `isCreatePrivateFormInputCorrect`. `hidePp` is the stored preference read by
   * `shouldPassPhraseBeHidden` and `confirm` the user's answer to the
   * confirm-with-checkbox dialog for a given note. The checks run in order:
   * empty first entry, weak pass phrase, differing entries; each ends the
   * validation with its own warning.
   */
  function IsCreatePrivateFormInputCorrect(form: Form, hidePp: bool, confirm: string -> bool): (v: Verdict)
    ensures form.password1 == "" <==> v == Warned(EMPTY_WARNING, FirstEntry, false)
    ensures form.password1 != "" && form.weak <==> v == Warned(WEAK_WARNING, FirstEntry, false)
    ensures form.password1 != "" && !form.weak && form.password1 != form.password2 <==>
      v == Warned(MISMATCH_WARNING, SecondEntry, true)
    ensures v.Prompted? <==> form.password1 != "" && !form.weak && form.password1 == form.password2
    ensures v.Prompted? ==> v.note == StickyNote(NoteText(form.password1, hidePp)) && v.answer == confirm(v.note)
  {
    if form.password1 == "" then Warned(EMPTY_WARNING, FirstEntry, false)
    else if form.weak then Warned(WEAK_WARNING, FirstEntry, false)
    else if form.password1 != form.password2 then Warned(MISMATCH_WARNING, SecondEntry, true)
    else
      var note := StickyNote(NoteText(form.password1, hidePp));
      Prompted(note, confirm(note))
  }

  /** The boolean `isCreatePrivateFormInputCorrect` resolves to. */
  function Validated(form: Form, hidePp: bool, confirm: string -> bool): (ok: bool)
    ensures ok <==> (form.password1 != "" && !form.weak && form.password1 == form.password2 &&
                     confirm(StickyNote(NoteText(form.password1, hidePp))))
  {
    var v := IsCreatePrivateFormInputCorrect(form, hidePp, confirm);
    v.Prompted? && v.answer
  }

  /** The second entry after validation: emptied exactly when the two entries differed. */
  function SecondEntryAfter(form: Form, hidePp: bool, confirm: string -> bool): (p2: string)
    ensures p2 == "" || p2 == form.password2
    ensures form.password2 != "" ==> (p2 == "" <==> form.password1 != "" && !form.weak && form.password1 != form.password2)
  {
    if IsCreatePrivateFormInputCorrect(form, hidePp, confirm).Warned?
       && IsCreatePrivateFormInputCorrect(form, hidePp, confirm).secondCleared
    then "" else form.password2
  }

  /**
   * An empty first entry is refused before anything else is looked at: the
   * result is the same whatever the strength or the second entry.
   */
  lemma EmptyCheckedFirst(p2: string, weak: bool, p2b: string, weakb: bool, hidePp: bool, confirm: string -> bool)
    ensures IsCreatePrivateFormInputCorrect(Form("", p2, weak), hidePp, confirm)
         == IsCreatePrivateFormInputCorrect(Form("", p2b, weakb), hidePp, confirm)
  {
  }

  /** A weak pass phrase is refused even when both entries agree. */
  lemma WeakRefusedEvenIfMatching(pp: string, hidePp: bool, confirm: string -> bool)
    requires pp != ""
    ensures IsCreatePrivateFormInputCorrect(Form(pp, pp, true), hidePp, confirm) == Warned(WEAK_WARNING, FirstEntry, false)
    ensures !Validated(Form(pp, pp, true), hidePp, confirm)
  {
  }

  /** With hiding off the note shows the pass phrase verbatim; with it on, the masked text. */
  lemma NoteShowsPassPhrase(form: Form, hidePp: bool, confirm: string -> bool)
    requires IsCreatePrivateFormInputCorrect(form, hidePp, confirm).Prompted?
    ensures var note := IsCreatePrivateFormInputCorrect(form, hidePp, confirm).note;
      var t := NoteText(form.password1, hidePp);
      && note[|NOTE_HEAD|..|NOTE_HEAD| + |t|] == t
      && (!hidePp ==> note[|NOTE_HEAD|..|NOTE_HEAD| + |form.password1|] == form.password1)
  {
  }

  /** Where `actionCreateKeyHandler` goes: it stops, or creates a key protected by the given pass phrase. */
  datatype HandlerStep = Stopped | CreateKey(passphrase: string)

  /**
   * `actionCreateKeyHandler` up to key creation: without a validated form it
   * returns before creating or saving anything; otherwise the key is created
   * with the first entry as its pass phrase.
   */
  function ActionCreateKeyHandler(form: Form, hidePp: bool, confirm: string -> bool): (step: HandlerStep)
    ensures step == Stopped <==> !Validated(form, hidePp, confirm)
    ensures step.CreateKey? ==>
      && step.passphrase == form.password1 == form.password2
      && step.passphrase != ""
      && !form.weak
  {
    if !Validated(form, hidePp, confirm) then Stopped else CreateKey(form.password1)
  }
}
