/**
 * The hidden reply marker appended to password-protected plain messages: who
 * the message came from, whom a reply should go to, and a single-use token.
 */
module ReplyToken {
  import opened FormatterTypes

  /** `Array.prototype.concat.apply([], Object.values(recipients))`: all addresses, group by group. */
  function AllRecipients(groups: seq<RecipientGroup>): seq<string>
  {
    if groups == [] then [] else AllRecipients(groups[..|groups| - 1]) + groups[|groups| - 1].addresses
  }

  lemma {:induction false} AllRecipientsMembers(groups: seq<RecipientGroup>, x: string)
    ensures x in AllRecipients(groups) <==> exists g :: g in groups && x in g.addresses
  {
    if groups != [] {
      var init := groups[..|groups| - 1];
      AllRecipientsMembers(init, x);
      assert groups == init + [groups[|groups| - 1]];
      if exists g :: g in groups && x in g.addresses {
        var g :| g in groups && x in g.addresses;
        assert g in init || g == groups[|groups| - 1];
      }
    }
  }

  /** `Value.arr.withoutVal(arr, v)`: every occurrence of `v` removed, the rest kept in order. */
  function WithoutVal(arr: seq<string>, v: string): (r: seq<string>)
    ensures multiset(r) == multiset(arr)[v := 0]
  {
    if arr == [] then []
    else
      var init, last := arr[..|arr| - 1], arr[|arr| - 1];
      assert arr == init + [last];
      var rest := WithoutVal(init, v);
      if last == v then rest else rest + [last]
  }

  /**
   * Removal works element by element: removing from a concatenation removes
   * from each part, so, with the one-element case, the remaining elements keep
   * their order.
   */
  lemma {:induction false} WithoutValAppend(a: seq<string>, b: seq<string>, v: string)
    ensures WithoutVal(a + b, v) == WithoutVal(a, v) + WithoutVal(b, v)
    ensures WithoutVal([v], v) == []
    ensures forall x :: x != v ==> WithoutVal([x], v) == [x]
    decreases |b|
  {
    assert [v][..0] == [];
    if b == [] {
      assert a + b == a;
    } else {
      var init, last := b[..|b| - 1], b[|b| - 1];
      assert a + b == (a + init) + [last];
      assert (a + b)[..|a + b| - 1] == a + init;
      WithoutValAppend(a, init, v);
    }
  }

  /** Removing a value that does not occur changes nothing. */
  lemma {:induction false} WithoutAbsentVal(arr: seq<string>, v: string)
    requires v !in arr
    ensures WithoutVal(arr, v) == arr
  {
    if arr != [] {
      assert arr == arr[..|arr| - 1] + [arr[|arr| - 1]];
      WithoutAbsentVal(arr[..|arr| - 1], v);
    }
  }

  /** The marker's recipient list: all draft recipients except the sender and the account itself. */
  function ReplyRecipients(groups: seq<RecipientGroup>, sender: string, acctEmail: string): seq<string>
  {
    WithoutVal(WithoutVal(AllRecipients(groups), sender), acctEmail)
  }

  /**
   * The marker lists every other recipient as often as the draft does, and
   * never the sender or the account.
   */
  lemma ReplyRecipientsExclude(groups: seq<RecipientGroup>, sender: string, acctEmail: string)
    ensures sender !in ReplyRecipients(groups, sender, acctEmail)
    ensures acctEmail !in ReplyRecipients(groups, sender, acctEmail)
    ensures forall x :: x != sender && x != acctEmail ==>
      multiset(ReplyRecipients(groups, sender, acctEmail))[x] == multiset(AllRecipients(groups))[x]
  {
    var r := ReplyRecipients(groups, sender, acctEmail);
    assert multiset(r)[sender] == 0 && multiset(r)[acctEmail] == 0;
  }

  /**
   * The marker element: the encoded record of sender, reply recipients, the
   * draft object itself under `subject` (the program passes the whole draft
   * there, not its subject line), and the token.
   */
  function ReplyMarker(env: Env, draft: MsgSnapshot, acctEmail: string, token: string): string
  {
    env.replyDiv(env.htmlAttrEncode(ReplyData(
      draft.sender, ReplyRecipients(draft.recipients, draft.sender, acctEmail), draft, token)))
  }
}
