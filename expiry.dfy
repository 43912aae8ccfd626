/**
 * The public-key expiration policy applied before every encryption: whether to
 * encrypt "now", as of an earlier instant at which every recipient key was
 * still usable, or to abort the send.
 */
module Expiry {
  import opened Wrappers

  /** One recipient key as handed to the formatter: its owner, its armored text, whether it is the sender's. */
  datatype PubkeyResult = PubkeyResult(email: string, pubkey: string, isMine: bool)

  /**
   * What the key library reports about an armored key: creation time, the
   * instant one second before it expires (absent when it never expires), and
   * whether it is usable apart from being expired. Times are milliseconds.
   */
  datatype ParsedKey = ParsedKey(creationTime: int, oneSecondBeforeExpiration: Option<int>, usableButExpired: bool)

  /** The facts the policy looks at, per recipient key. */
  datatype KeyFacts = KeyFacts(creationTime: int, oneSecondBeforeExpiration: Option<int>, isMine: bool, usableButExpired: bool)

  /** The outcome: encrypt now, abort for one of three reasons, or encrypt as of `date`. */
  datatype AsOfDecision = NoOverride | OwnKeyExpired | NoOverlap | Declined | EncryptAsOf(date: int)

  function Facts(p: PubkeyResult, readKey: string -> ParsedKey): KeyFacts
  {
    var k := readKey(p.pubkey);
    KeyFacts(k.creationTime, k.oneSecondBeforeExpiration, p.isMine, k.usableButExpired)
  }

  function FactsOf(keys: seq<PubkeyResult>, readKey: string -> ParsedKey): seq<KeyFacts>
  {
    seq(|keys|, i requires 0 <= i < |keys| => Facts(keys[i], readKey))
  }

  /** The `usableFrom` array: every key's creation time, in key order. */
  function UsableFrom(keys: seq<KeyFacts>): (r: seq<int>)
    ensures |r| == |keys|
  {
    if keys == [] then [] else UsableFrom(keys[..|keys| - 1]) + [keys[|keys| - 1].creationTime]
  }

  /** The `usableUntil` array: the expiry of every key that expires, in key order. */
  function UsableUntil(keys: seq<KeyFacts>): (r: seq<int>)
    ensures |r| <= |keys|
  {
    if keys == [] then []
    else
      var last := keys[|keys| - 1];
      UsableUntil(keys[..|keys| - 1]) + (if last.oneSecondBeforeExpiration.Some? then [last.oneSecondBeforeExpiration.value] else [])
  }

  lemma {:induction false} UsableFromIsCreationTimes(keys: seq<KeyFacts>)
    ensures |UsableFrom(keys)| == |keys|
    ensures forall i :: 0 <= i < |keys| ==> UsableFrom(keys)[i] == keys[i].creationTime
  {
    if keys != [] {
      UsableFromIsCreationTimes(keys[..|keys| - 1]);
    }
  }

  lemma {:induction false} UsableUntilIsExpiries(keys: seq<KeyFacts>)
    ensures |UsableUntil(keys)| <= |keys|
    ensures forall t :: t in UsableUntil(keys) <==> exists i :: 0 <= i < |keys| && keys[i].oneSecondBeforeExpiration == Some(t)
  {
    if keys != [] {
      var init := keys[..|keys| - 1];
      UsableUntilIsExpiries(init);
      forall t
        ensures t in UsableUntil(keys) <==> exists i :: 0 <= i < |keys| && keys[i].oneSecondBeforeExpiration == Some(t)
      {
        if exists i :: 0 <= i < |keys| && keys[i].oneSecondBeforeExpiration == Some(t) {
          var i :| 0 <= i < |keys| && keys[i].oneSecondBeforeExpiration == Some(t);
          if i < |keys| - 1 {
            assert init[i] == keys[i];
          }
        }
        if t in UsableUntil(init) {
          var i :| 0 <= i < |init| && init[i].oneSecondBeforeExpiration == Some(t);
          assert keys[i] == init[i];
        }
      }
    }
  }

  /** `Math.max(...s)` on a non-empty list. */
  function MaxOf(s: seq<int>): (m: int)
    requires |s| > 0
    ensures m in s
    ensures forall x :: x in s ==> x <= m
  {
    if |s| == 1 then s[0]
    else
      var rest := MaxOf(s[1..]);
      assert forall x :: x in s ==> x == s[0] || x in s[1..];
      if s[0] > rest then s[0] else rest
  }

  /** `Math.min(...s)` on a non-empty list. */
  function MinOf(s: seq<int>): (m: int)
    requires |s| > 0
    ensures m in s
    ensures forall x :: x in s ==> m <= x
  {
    if |s| == 1 then s[0]
    else
      var rest := MinOf(s[1..]);
      assert forall x :: x in s ==> x == s[0] || x in s[1..];
      if s[0] < rest then s[0] else rest
  }

  predicate SomeOwnKeyExpired(keys: seq<KeyFacts>)
  {
    exists i :: 0 <= i < |keys| && keys[i].isMine && keys[i].usableButExpired
  }

  /**
   * The decision of `encryptMsgAsOfDateIfSomeAreExpiredAndUserConfirmedModal`,
   * with `confirmed` the answer the user would give to the expired-key prompt.
   * Note the early return: the override is skipped as soon as the LATEST expiry
   * is in the future, i.e. whenever any expiring key is still valid.
   */
  function AsOfDate(keys: seq<KeyFacts>, now: int, confirmed: bool): AsOfDecision
  {
    var until := UsableUntil(keys);
    if |until| == 0 then NoOverride
    else if MaxOf(until) > now then NoOverride
    else if SomeOwnKeyExpired(keys) then OwnKeyExpired
    else if MaxOf(UsableFrom(keys)) > MinOf(until) then NoOverlap
      else if !confirmed then Declined
      else EncryptAsOf(MinOf(until))
  }

  // ---------------------------------------------------------------------------
  // Properties of the decision, stated directly over the keys.

  predicate Expires(k: KeyFacts) { k.oneSecondBeforeExpiration.Some? }

  /** Every expiring key has already expired by `now`. */
  predicate AllExpiringExpired(keys: seq<KeyFacts>, now: int)
  {
    forall i :: 0 <= i < |keys| && Expires(keys[i]) ==> keys[i].oneSecondBeforeExpiration.value <= now
  }

  /** Every key is usable at instant `t`: created by then and not yet expired. */
  predicate AllUsableAt(keys: seq<KeyFacts>, t: int)
  {
    forall i :: 0 <= i < |keys| ==>
      keys[i].creationTime <= t &&
      (Expires(keys[i]) ==> t <= keys[i].oneSecondBeforeExpiration.value)
  }

  /** No creation time lies after any expiry: the usable windows overlap. */
  predicate WindowsOverlap(keys: seq<KeyFacts>)
  {
    forall i, j :: 0 <= i < |keys| && 0 <= j < |keys| && Expires(keys[j]) ==>
      keys[i].creationTime <= keys[j].oneSecondBeforeExpiration.value
  }

  lemma UntilFacts(keys: seq<KeyFacts>, now: int)
    ensures |UsableUntil(keys)| == 0 <==> forall i :: 0 <= i < |keys| ==> !Expires(keys[i])
    ensures |UsableUntil(keys)| > 0 ==> (MaxOf(UsableUntil(keys)) <= now <==> AllExpiringExpired(keys, now))
  {
    UsableUntilIsExpiries(keys);
    var until := UsableUntil(keys);
    if |until| > 0 {
      assert until[0] in until;
      var i :| 0 <= i < |keys| && keys[i].oneSecondBeforeExpiration == Some(until[0]);
      assert Expires(keys[i]);
      if MaxOf(until) <= now {
        forall i | 0 <= i < |keys| && Expires(keys[i]) ensures keys[i].oneSecondBeforeExpiration.value <= now {
          assert keys[i].oneSecondBeforeExpiration.value in until;
        }
      }
    }
  }

  lemma OverlapFacts(keys: seq<KeyFacts>)
    requires |UsableUntil(keys)| > 0
    ensures |UsableFrom(keys)| > 0
    ensures MaxOf(UsableFrom(keys)) <= MinOf(UsableUntil(keys)) <==> WindowsOverlap(keys)
  {
    UsableFromIsCreationTimes(keys);
    UsableUntilIsExpiries(keys);
    var from, until := UsableFrom(keys), UsableUntil(keys);
    if MaxOf(from) <= MinOf(until) {
      forall i, j | 0 <= i < |keys| && 0 <= j < |keys| && Expires(keys[j])
        ensures keys[i].creationTime <= keys[j].oneSecondBeforeExpiration.value
      {
        assert from[i] in from;
        assert keys[j].oneSecondBeforeExpiration == Some(keys[j].oneSecondBeforeExpiration.value);
        assert keys[j].oneSecondBeforeExpiration.value in until;
      }
    } else {
      var mf := MaxOf(from);
      var i :| 0 <= i < |from| && from[i] == mf;
      var j :| 0 <= j < |keys| && keys[j].oneSecondBeforeExpiration == Some(MinOf(until));
      assert keys[i].creationTime > keys[j].oneSecondBeforeExpiration.value;
    }
  }

  /** No override (encrypt as of now) exactly when no key expires or some expiring key is still valid. */
  lemma NoOverrideExactly(keys: seq<KeyFacts>, now: int, confirmed: bool)
    ensures AsOfDate(keys, now, confirmed) == NoOverride <==>
      (forall i :: 0 <= i < |keys| ==> !Expires(keys[i])) || !AllExpiringExpired(keys, now)
  {
    UntilFacts(keys, now);
  }

  /** Once every expiring key has expired, an expired own key aborts first, whatever the other checks say. */
  lemma OwnKeyCheckedFirst(keys: seq<KeyFacts>, now: int, confirmed: bool)
    ensures AsOfDate(keys, now, confirmed) == OwnKeyExpired <==>
      (exists i :: 0 <= i < |keys| && Expires(keys[i])) && AllExpiringExpired(keys, now) && SomeOwnKeyExpired(keys)
  {
    UntilFacts(keys, now);
  }

  /** Then missing overlap of the usable windows aborts, before the user is asked. */
  lemma NoOverlapChecksSecond(keys: seq<KeyFacts>, now: int, confirmed: bool)
    ensures AsOfDate(keys, now, confirmed) == NoOverlap <==>
      (exists i :: 0 <= i < |keys| && Expires(keys[i])) && AllExpiringExpired(keys, now) &&
      !SomeOwnKeyExpired(keys) && !WindowsOverlap(keys)
  {
    UntilFacts(keys, now);
    if |UsableUntil(keys)| > 0 {
      OverlapFacts(keys);
    }
  }

  /** Only with overlapping windows is the user asked, and a refusal aborts. */
  lemma DeclinedOnlyWhenAsked(keys: seq<KeyFacts>, now: int, confirmed: bool)
    ensures AsOfDate(keys, now, confirmed) == Declined <==>
      (exists i :: 0 <= i < |keys| && Expires(keys[i])) && AllExpiringExpired(keys, now) &&
      !SomeOwnKeyExpired(keys) && WindowsOverlap(keys) && !confirmed
  {
    UntilFacts(keys, now);
    if |UsableUntil(keys)| > 0 {
      OverlapFacts(keys);
    }
  }

  /**
   * A confirmed override encrypts as of the earliest expiry: an instant in the
   * past at which every key was usable, and the latest such instant.
   */
  lemma EncryptAsOfLatestCommonInstant(keys: seq<KeyFacts>, now: int, confirmed: bool, d: int)
    requires AsOfDate(keys, now, confirmed) == EncryptAsOf(d)
    ensures confirmed && d <= now
    ensures AllUsableAt(keys, d)
    ensures forall t :: AllUsableAt(keys, t) ==> t <= d
  {
    UntilFacts(keys, now);
    OverlapFacts(keys);
    UsableUntilIsExpiries(keys);
    UsableFromIsCreationTimes(keys);
    var until := UsableUntil(keys);
    assert d == MinOf(until);
    var j :| 0 <= j < |keys| && keys[j].oneSecondBeforeExpiration == Some(d);
    forall i | 0 <= i < |keys| ensures keys[i].creationTime <= d {
      assert UsableFrom(keys)[i] in UsableFrom(keys);
    }
    forall i | 0 <= i < |keys| && Expires(keys[i]) ensures d <= keys[i].oneSecondBeforeExpiration.value {
      assert keys[i].oneSecondBeforeExpiration.value in until;
    }
    forall t | AllUsableAt(keys, t) ensures t <= d {
      assert Expires(keys[j]);
    }
  }

  /** An override happens only when every expiring key expired, none of them is the sender's, and the windows overlap. */
  lemma EncryptAsOfExactly(keys: seq<KeyFacts>, now: int, confirmed: bool)
    ensures AsOfDate(keys, now, confirmed).EncryptAsOf? <==>
      (exists i :: 0 <= i < |keys| && Expires(keys[i])) && AllExpiringExpired(keys, now) &&
      !SomeOwnKeyExpired(keys) && WindowsOverlap(keys) && confirmed
  {
    UntilFacts(keys, now);
    if |UsableUntil(keys)| > 0 {
      OverlapFacts(keys);
    }
  }

  // ---------------------------------------------------------------------------
  // The routine itself: two arrays filled in a loop, then the checks in order.

  /**
   * `encryptMsgAsOfDateIfSomeAreExpiredAndUserConfirmedModal`. The key library
   * is `readKey`, the clock is `now` and the prompt's answer is `confirm`.
   */
  method EncryptMsgAsOfDateIfSomeAreExpiredAndUserConfirmedModal(
    armoredPubkeys: seq<PubkeyResult>, readKey: string -> ParsedKey, now: int, confirm: bool)
    returns (r: AsOfDecision)
    ensures r == AsOfDate(FactsOf(armoredPubkeys, readKey), now, confirm)
  {
    ghost var facts := FactsOf(armoredPubkeys, readKey);
    var usableUntil: seq<int> := [];
    var usableFrom: seq<int> := [];
    for i := 0 to |armoredPubkeys|
      invariant usableFrom == UsableFrom(facts[..i])
      invariant usableUntil == UsableUntil(facts[..i])
    {
      var pub := readKey(armoredPubkeys[i].pubkey);
      assert facts[..i + 1][..i] == facts[..i];
      usableFrom := usableFrom + [pub.creationTime];
      if pub.oneSecondBeforeExpiration.Some? {
        usableUntil := usableUntil + [pub.oneSecondBeforeExpiration.value];
      }
    }
    assert facts[..|armoredPubkeys|] == facts;
    if |usableUntil| == 0 {
      return NoOverride;
    }
    if MaxOf(usableUntil) > now {
      return NoOverride;
    }
    for i := 0 to |armoredPubkeys|
      invariant forall j :: 0 <= j < i ==> !(facts[j].isMine && facts[j].usableButExpired)
    {
      if armoredPubkeys[i].isMine && readKey(armoredPubkeys[i].pubkey).usableButExpired {
        assert facts[i].isMine && facts[i].usableButExpired;
        return OwnKeyExpired;
      }
    }
    UsableFromIsCreationTimes(facts);
    UsableUntilIsExpiries(facts);
    var usableTimeFrom := MaxOf(usableFrom);
    var usableTimeUntil := MinOf(usableUntil);
    if usableTimeFrom > usableTimeUntil {
      return NoOverlap;
    }
    if !confirm {
      return Declined;
    }
    return EncryptAsOf(usableTimeUntil);
  }
}
