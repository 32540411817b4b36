/** The WhatsApp address codec of whatsapp-service/src/connection-manager.js. */
module Address {
  import opened Wrappers

  const PHONE_SUFFIX := "@s.whatsapp.net"
  const LID_SUFFIX := "@lid"
  const LID_PREFIX := "lid:"

  datatype Target = Target(phone: string, jid: string)

  predicate Digits(s: string) {
    forall i :: 0 <= i < |s| ==> '0' <= s[i] <= '9'
  }

  /** /^\d{7,15}$/ */
  predicate IsPhone(s: string) {
    7 <= |s| <= 15 && Digits(s)
  }

  /** /^\d{1,20}$/ */
  predicate IsLid(s: string) {
    1 <= |s| <= 20 && Digits(s)
  }

  predicate EndsWith(s: string, suffix: string) {
    |suffix| <= |s| && s[|s| - |suffix|..] == suffix
  }

  /** s.slice(0, -suffix.length) */
  function Before(s: string, suffix: string): string
    requires |suffix| <= |s|
  {
    s[..|s| - |suffix|]
  }

  /** The target of a message from `jid`, whose alias is `alt`; both are "" where absent. */
  function DirectMessageTarget(jid: string, alt: string): Option<Target> {
    if EndsWith(jid, PHONE_SUFFIX) then
      var phone := Before(jid, PHONE_SUFFIX);
      if IsPhone(phone) then Some(Target(phone, jid)) else None
    else if EndsWith(jid, LID_SUFFIX) then
      var lid := Before(jid, LID_SUFFIX);
      if !IsLid(lid) then None
      else if EndsWith(alt, PHONE_SUFFIX) && IsPhone(Before(alt, PHONE_SUFFIX)) then
        Some(Target(Before(alt, PHONE_SUFFIX), jid))
      else Some(Target(LID_PREFIX + lid, jid))
    else None
  }

  /** None is the thrown error. */
  function RecipientJid(recipient: string): Option<string> {
    if LID_PREFIX <= recipient && IsLid(recipient[|LID_PREFIX|..]) then Some(recipient[|LID_PREFIX|..] + LID_SUFFIX)
    else if IsPhone(recipient) then Some(recipient + PHONE_SUFFIX)
    else None
  }

  lemma SuffixJoin(s: string, suffix: string)
    ensures EndsWith(s + suffix, suffix) && Before(s + suffix, suffix) == s
    ensures forall t :: EndsWith(t, suffix) && Before(t, suffix) == s ==> t == s + suffix
  {
    forall t | EndsWith(t, suffix) && Before(t, suffix) == s ensures t == s + suffix {
      assert t == t[..|t| - |suffix|] + t[|t| - |suffix|..];
    }
  }

  lemma DigitsAreNotLid(s: string)
    requires IsPhone(s)
    ensures !(LID_PREFIX <= s)
  {
    assert LID_PREFIX[0] == 'l';
  }

  lemma LidIsNotPhoneAddress(s: string)
    requires Digits(s)
    ensures !EndsWith(s + LID_SUFFIX, PHONE_SUFFIX)
  {
    var t := s + LID_SUFFIX;
    assert t[|t| - 1] == 'd';
    assert PHONE_SUFFIX[|PHONE_SUFFIX| - 1] == 't';
  }

  /** `s` is between `lo` and `hi` digits. */
  predicate DigitsOf(s: string, lo: nat, hi: nat) {
    lo <= |s| <= hi && forall i :: 0 <= i < |s| ==> '0' <= s[i] <= '9'
  }

  /** An alias that names a phone: 7 to 15 digits at "@s.whatsapp.net". */
  predicate PhoneAt(jid: string, phone: string) {
    DigitsOf(phone, 7, 15) && jid == phone + "@s.whatsapp.net"
  }

  predicate LidAt(jid: string, lid: string) {
    DigitsOf(lid, 1, 20) && jid == lid + "@lid"
  }

  lemma PhoneAddress(jid: string)
    ensures EndsWith(jid, PHONE_SUFFIX) && IsPhone(Before(jid, PHONE_SUFFIX)) <==> exists p :: PhoneAt(jid, p)
    ensures forall p :: PhoneAt(jid, p) ==> EndsWith(jid, PHONE_SUFFIX) && p == Before(jid, PHONE_SUFFIX)
  {
    if EndsWith(jid, PHONE_SUFFIX) && IsPhone(Before(jid, PHONE_SUFFIX)) {
      SuffixJoin(Before(jid, PHONE_SUFFIX), PHONE_SUFFIX);
      assert PhoneAt(jid, Before(jid, PHONE_SUFFIX));
    }
    forall p | PhoneAt(jid, p) ensures EndsWith(jid, PHONE_SUFFIX) && p == Before(jid, PHONE_SUFFIX) && IsPhone(p) {
      SuffixJoin(p, PHONE_SUFFIX);
    }
  }

  lemma LidAddress(jid: string)
    ensures EndsWith(jid, LID_SUFFIX) && IsLid(Before(jid, LID_SUFFIX)) <==> exists l :: LidAt(jid, l)
    ensures forall l :: LidAt(jid, l) ==>
              EndsWith(jid, LID_SUFFIX) && l == Before(jid, LID_SUFFIX) && !EndsWith(jid, PHONE_SUFFIX)
  {
    if EndsWith(jid, LID_SUFFIX) && IsLid(Before(jid, LID_SUFFIX)) {
      SuffixJoin(Before(jid, LID_SUFFIX), LID_SUFFIX);
      assert LidAt(jid, Before(jid, LID_SUFFIX));
    }
    forall l | LidAt(jid, l)
      ensures EndsWith(jid, LID_SUFFIX) && l == Before(jid, LID_SUFFIX) && IsLid(l) && !EndsWith(jid, PHONE_SUFFIX)
    {
      SuffixJoin(l, LID_SUFFIX);
      LidIsNotPhoneAddress(l);
    }
  }

  /**
   A message is accepted exactly from a phone address or a LID address. Its phone is that of the address, or
   for a LID that of a phone alias, or else the LID with its prefix.
   */
  lemma TargetExactlyWhen(jid: string, alt: string)
    ensures DirectMessageTarget(jid, alt).Some? <==> (exists p :: PhoneAt(jid, p)) || (exists l :: LidAt(jid, l))
    ensures forall p :: PhoneAt(jid, p) ==> DirectMessageTarget(jid, alt) == Some(Target(p, jid))
    ensures forall l, p :: LidAt(jid, l) && PhoneAt(alt, p) ==> DirectMessageTarget(jid, alt) == Some(Target(p, jid))
    ensures forall l :: LidAt(jid, l) && (forall p :: !PhoneAt(alt, p)) ==>
              DirectMessageTarget(jid, alt) == Some(Target("lid:" + l, jid))
  {
    PhoneAddress(jid);
    PhoneAddress(alt);
    LidAddress(jid);
  }

  /** A recipient is "lid:" and 1 to 20 digits, or 7 to 15 digits, and its address follows from it. */
  lemma RecipientExactlyWhen(recipient: string)
    ensures RecipientJid(recipient).Some? <==>
              DigitsOf(recipient, 7, 15) || exists l :: DigitsOf(l, 1, 20) && recipient == "lid:" + l
    ensures DigitsOf(recipient, 7, 15) ==> RecipientJid(recipient) == Some(recipient + "@s.whatsapp.net")
    ensures forall l :: DigitsOf(l, 1, 20) && recipient == "lid:" + l ==> RecipientJid(recipient) == Some(l + "@lid")
  {
    forall l | DigitsOf(l, 1, 20) && recipient == "lid:" + l ensures RecipientJid(recipient) == Some(l + "@lid") {
      assert recipient[|LID_PREFIX|..] == l;
    }
    if LID_PREFIX <= recipient && IsLid(recipient[|LID_PREFIX|..]) {
      assert recipient == "lid:" + recipient[|LID_PREFIX|..] && DigitsOf(recipient[|LID_PREFIX|..], 1, 20);
    }
    if DigitsOf(recipient, 7, 15) {
      DigitsAreNotLid(recipient);
    }
  }

  /**
   Replying to the phone of an accepted message always has an address: that of the sender, or the
   phone address given as the alias of a LID sender.
   */
  lemma ReplyGoesBack(jid: string, alt: string)
    requires DirectMessageTarget(jid, alt).Some?
    ensures var t := DirectMessageTarget(jid, alt).value;
            && t.jid == jid
            && RecipientJid(t.phone) == Some(if EndsWith(jid, LID_SUFFIX) && IsPhone(t.phone) then alt else jid)
  {
    var t := DirectMessageTarget(jid, alt).value;
    if EndsWith(jid, PHONE_SUFFIX) {
      SuffixJoin(t.phone, PHONE_SUFFIX);
      DigitsAreNotLid(t.phone);
      assert jid[|jid| - 1] == PHONE_SUFFIX[|PHONE_SUFFIX| - 1] == 't';
      assert LID_SUFFIX[|LID_SUFFIX| - 1] == 'd';
      assert !EndsWith(jid, LID_SUFFIX);
    } else {
      var lid := Before(jid, LID_SUFFIX);
      SuffixJoin(lid, LID_SUFFIX);
      if EndsWith(alt, PHONE_SUFFIX) && IsPhone(Before(alt, PHONE_SUFFIX)) {
        SuffixJoin(t.phone, PHONE_SUFFIX);
        DigitsAreNotLid(t.phone);
      } else {
        assert (LID_PREFIX + lid)[|LID_PREFIX|..] == lid;
        SuffixJoin(t.phone, PHONE_SUFFIX);
        assert t.phone[0] == 'l';
      }
    }
  }

  /** Reading back the address made for a recipient gives the recipient. */
  lemma RecipientRoundTrip(recipient: string, jid: string)
    requires RecipientJid(recipient) == Some(jid)
    ensures DirectMessageTarget(jid, "") == Some(Target(recipient, jid))
  {
    if LID_PREFIX <= recipient && IsLid(recipient[|LID_PREFIX|..]) {
      var lid := recipient[|LID_PREFIX|..];
      SuffixJoin(lid, LID_SUFFIX);
      LidIsNotPhoneAddress(lid);
      assert LID_PREFIX + lid == recipient;
    } else {
      SuffixJoin(recipient, PHONE_SUFFIX);
    }
  }

  /** So two recipients never share an address. */
  lemma RecipientsApart(a: string, b: string)
    requires RecipientJid(a).Some? && RecipientJid(a) == RecipientJid(b)
    ensures a == b
  {
    RecipientRoundTrip(a, RecipientJid(a).value);
    RecipientRoundTrip(b, RecipientJid(b).value);
  }
}
