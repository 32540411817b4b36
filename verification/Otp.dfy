/**
 One-time codes of src/erp/ai/whatsapp_support_agent.py: the send_customer_otp and
 verify_customer_otp branches of _execute_tool, and _is_verified, under the session of
 src/erp/db/session.py, which flushes only when told to and keeps what it has loaded.

 Every conversation's turn has a session of its own; `conv` selects its rows. Times are microseconds
 on one clock. The keyed digest is a parameter `mac`.
 */
module Otp {
  import opened Wrappers
  import opened Sums

  const HOUR := 3_600_000_000
  const CODE_LIFE := 300_000_000
  const GRANT_LIFE := 1_800_000_000
  const MAX_ATTEMPTS := 5
  const MAX_RECENT := 3

  type Mac = string -> string

  datatype Conv = Conv(tenant: string, id: string)

  /** The columns of a challenge that change. */
  datatype Cols = Cols(attempts: int, usedAt: Option<int>)

  /**
   A row of whatsapp_otp_challenges. Its changing columns are committed as `kept`, flushed as
   `stored`, which is what a query filters on, and in memory as `held`, which is what a check changes.
   */
  datatype Challenge = Challenge(conv: Conv, leadId: string, codeHash: string, expiresAt: int, createdAt: int,
                                 kept: Cols, stored: Cols, held: Cols)

  /** verified_lead_id and verified_until of a conversation. */
  datatype Grant = Grant(leadId: string, until: int)

  datatype Delivery = Delivered | Failed(at: int)

  /** Unavailable: the session failed to flush, now or earlier in the turn. */
  datatype SendResult = NoLead | LimitReached | Sent | SendFailed | Unavailable

  /** `index` is the row of the challenge that was compared. */
  datatype VerifyResult = InvalidInput | NoActiveCode | Incorrect(index: nat) | Verified(index: nat) | NotChecked

  /**
   The challenges, the verifications as committed and as held in memory, and the conversations whose
   session failed to flush and serves nothing more until its turn ends.
   */
  datatype Desk = Desk(challenges: seq<Challenge>, keptGrants: map<Conv, Grant>, grants: map<Conv, Grant>,
                       broken: set<Conv>)

  function DigestText(conv: Conv, leadId: string, code: string): string {
    conv.tenant + ":" + conv.id + ":" + leadId + ":" + code
  }

  function Digest(mac: Mac, conv: Conv, leadId: string, code: string): string {
    mac(DigestText(conv, leadId, code))
  }

  // ---------------------------------------------------------------- queries

  predicate CreatedIn(c: Challenge, conv: Conv, lo: int, hi: int) {
    c.conv == conv && lo <= c.createdAt <= hi
  }

  function CountsIn(conv: Conv, lo: int, hi: int): Challenge -> int {
    (c: Challenge) => if CreatedIn(c, conv, lo, hi) then 1 else 0
  }

  function CountsSince(conv: Conv, lo: int): Challenge -> int {
    (c: Challenge) => if c.conv == conv && lo <= c.createdAt then 1 else 0
  }

  /** Challenges of `conv` created in the closed window from `lo` to `hi`. */
  function Created(cs: seq<Challenge>, conv: Conv, lo: int, hi: int): int {
    SumOf(CountsIn(conv, lo, hi), cs)
  }

  function Retired(c: Cols, now: int): Cols {
    if c.usedAt == None then c.(usedAt := Some(now)) else c
  }

  /**
   UPDATE whatsapp_otp_challenges SET used_at = now WHERE used_at IS NULL, applied to the table and to
   the loaded objects. A use still pending in memory is kept there.
   */
  function Retire(cs: seq<Challenge>, conv: Conv, now: int): seq<Challenge> {
    seq(|cs|, i requires 0 <= i < |cs| =>
      if cs[i].conv == conv
      then cs[i].(stored := Retired(cs[i].stored, now), held := Retired(cs[i].held, now))
      else cs[i])
  }

  predicate Active(c: Challenge, conv: Conv, now: int) {
    c.conv == conv && c.stored.usedAt == None && c.expiresAt > now && c.stored.attempts < MAX_ATTEMPTS
  }

  /** The active challenge created last. */
  function Latest(cs: seq<Challenge>, conv: Conv, now: int): (r: Option<nat>)
    ensures r.Some? ==> r.value < |cs| && Active(cs[r.value], conv, now)
    ensures r.Some? ==> forall i :: 0 <= i < |cs| && Active(cs[i], conv, now) ==> cs[i].createdAt <= cs[r.value].createdAt
    ensures r.None? ==> forall i :: 0 <= i < |cs| ==> !Active(cs[i], conv, now)
  {
    if cs == [] then None
    else
      var n := |cs| - 1;
      var r := Latest(cs[..n], conv, now);
      if Active(cs[n], conv, now) && (r.None? || cs[r.value].createdAt <= cs[n].createdAt) then Some(n) else r
  }

  /** _is_verified; a session that failed to flush cannot even read the conversation. */
  predicate IsVerified(d: Desk, conv: Conv, now: int) {
    conv !in d.broken && conv in d.grants && d.grants[conv].until > now
  }

  // ---------------------------------------------------------------- the session

  datatype Settling = Flushes | Commits | RollsBack

  function SettledRow(c: Challenge, how: Settling): Challenge {
    match how
    case Flushes => c.(stored := c.held)
    case Commits => c.(kept := c.held, stored := c.held)
    case RollsBack => c.(stored := c.kept, held := c.kept)
  }

  function SettledRows(cs: seq<Challenge>, conv: Conv, how: Settling): seq<Challenge> {
    seq(|cs|, i requires 0 <= i < |cs| => if cs[i].conv == conv then SettledRow(cs[i], how) else cs[i])
  }

  function CopyGrant(from: map<Conv, Grant>, to: map<Conv, Grant>, conv: Conv): map<Conv, Grant> {
    if conv in from then to[conv := from[conv]] else to - {conv}
  }

  function Settled(d: Desk, conv: Conv, how: Settling): Desk {
    d.(challenges := SettledRows(d.challenges, conv, how),
       keptGrants := if how.Commits? then CopyGrant(d.grants, d.keptGrants, conv) else d.keptGrants,
       grants := if how.RollsBack? then CopyGrant(d.keptGrants, d.grants, conv) else d.grants)
  }

  /** The table accepts attempts from 0 to 5. */
  predicate Flushable(cs: seq<Challenge>, conv: Conv) {
    forall i :: 0 <= i < |cs| && cs[i].conv == conv ==> cs[i].held.attempts <= MAX_ATTEMPTS
  }

  /**
   A flush by another tool of the turn; some commit as well. It is `refused` when the database does not
   accept what the tool itself writes.
   */
  function FlushSettling(d: Desk, conv: Conv, commits: bool, refused: bool): Option<Settling> {
    if conv in d.broken then None
    else if refused || !Flushable(d.challenges, conv) then Some(RollsBack)
    else if commits then Some(Commits)
    else Some(Flushes)
  }

  function AfterFlush(d: Desk, conv: Conv, commits: bool, refused: bool): Desk {
    match FlushSettling(d, conv, commits, refused)
    case None => d
    case Some(how) => Settled(d, conv, how).(broken := if how.RollsBack? then d.broken + {conv} else d.broken)
  }

  /**
   The end of a turn commits, unless it cannot flush, failed to flush before, or `aborts`: the turn is
   left by an error, or its reply is refused.
   */
  function EndSettling(d: Desk, conv: Conv, aborts: bool): Settling {
    if aborts || conv in d.broken || !Flushable(d.challenges, conv) then RollsBack else Commits
  }

  function AfterEnd(d: Desk, conv: Conv, aborts: bool): Desk {
    Settled(d, conv, EndSettling(d, conv, aborts)).(broken := d.broken - {conv})
  }

  // ---------------------------------------------------------------- the two tools

  /** A send: `now` is read before the row's own creation stamp `createdAt`. If refused, it is a refused flush. */
  datatype Send = Send(conv: Conv, leadId: Option<string>, code: string, now: int, createdAt: int, delivery: Delivery)

  /** A verification; `code` is None when the arguments fail validation. */
  datatype Check = Check(conv: Conv, code: Option<string>, now: int)

  function SendOutcome(d: Desk, s: Send): SendResult {
    if s.conv in d.broken then Unavailable
    else if s.leadId.None? then NoLead
    else if SumOf(CountsSince(s.conv, s.now - HOUR), d.challenges) >= MAX_RECENT then LimitReached
    else if !Flushable(d.challenges, s.conv) then Unavailable
    else if s.delivery.Delivered? then Sent
    else SendFailed
  }

  /** The row of a code whose delivery has ended, committed. */
  function NewChallenge(mac: Mac, s: Send, leadId: string): Challenge {
    var c := Cols(0, if s.delivery.Failed? then Some(s.delivery.at) else None);
    Challenge(s.conv, leadId, Digest(mac, s.conv, leadId, s.code), s.now + CODE_LIFE, s.createdAt, c, c, c)
  }

  function AfterSend(mac: Mac, d: Desk, s: Send): Desk {
    match SendOutcome(d, s)
    case NoLead => d
    case LimitReached => d
    case Unavailable => AfterFlush(d, s.conv, true, false)
    case _ =>
      var retired := Settled(d.(challenges := Retire(d.challenges, s.conv, s.now)), s.conv, Commits);
      retired.(challenges := retired.challenges + [NewChallenge(mac, s, s.leadId.value)])
  }

  /** Retiring codes changes neither what can be flushed nor what a rollback goes back to. */
  lemma RetireIsPending(cs: seq<Challenge>, conv: Conv, now: int)
    ensures Flushable(Retire(cs, conv, now), conv) <==> Flushable(cs, conv)
    ensures SettledRows(Retire(cs, conv, now), conv, RollsBack) == SettledRows(cs, conv, RollsBack)
  {
    var after := Retire(cs, conv, now);
    assert forall i :: 0 <= i < |cs| ==> after[i].held.attempts == cs[i].held.attempts && after[i].conv == cs[i].conv;
  }

  function CheckOutcome(mac: Mac, d: Desk, k: Check): (r: VerifyResult)
    ensures r.Incorrect? || r.Verified? ==> r.index < |d.challenges| && Active(d.challenges[r.index], k.conv, k.now)
  {
    if k.code.None? then InvalidInput
    else if k.conv in d.broken then NotChecked
    else
      match Latest(d.challenges, k.conv, k.now)
      case None => NoActiveCode
      case Some(i) =>
        if d.challenges[i].codeHash == Digest(mac, k.conv, d.challenges[i].leadId, k.code.value)
        then Verified(i) else Incorrect(i)
  }

  function AfterCheck(mac: Mac, d: Desk, k: Check): Desk {
    match CheckOutcome(mac, d, k)
    case Incorrect(i) =>
      var c := d.challenges[i];
      var n := c.held.attempts + 1;
      d.(challenges := d.challenges[i := c.(held := Cols(n, if n >= MAX_ATTEMPTS then Some(k.now) else c.held.usedAt))])
    case Verified(i) =>
      var c := d.challenges[i];
      d.(challenges := d.challenges[i := c.(held := Cols(c.held.attempts + 1, Some(k.now)))],
         grants := d.grants[k.conv := Grant(c.leadId, k.now + GRANT_LIFE)])
    case _ => d
  }

  function AfterDrop(d: Desk, conv: Conv): Desk {
    if conv in d.broken then d else d.(grants := d.grants - {conv})
  }

  class SupportDesk {
    var challenges: seq<Challenge>
    var keptGrants: map<Conv, Grant>
    var grants: map<Conv, Grant>
    var broken: set<Conv>
    const mac: Mac

    ghost function State(): Desk
      reads this
    {
      Desk(challenges, keptGrants, grants, broken)
    }

    constructor (mac: Mac)
      ensures State() == Desk([], map[], map[], {}) && this.mac == mac
    {
      challenges, keptGrants, grants, broken := [], map[], map[], {};
      this.mac := mac;
    }

    method Settle(conv: Conv, how: Settling)
      modifies this
      ensures State() == Settled(old(State()), conv, how)
    {
      challenges := SettledRows(challenges, conv, how);
      if how.Commits? {
        keptGrants := CopyGrant(grants, keptGrants, conv);
      } else if how.RollsBack? {
        grants := CopyGrant(keptGrants, grants, conv);
      }
    }

    /** A flush, or a commit, in the middle of a turn. */
    method Flush(conv: Conv, commits: bool, refused: bool) returns (ok: bool)
      modifies this
      ensures ok == (!refused && conv !in old(broken) && Flushable(old(challenges), conv))
      ensures State() == AfterFlush(old(State()), conv, commits, refused)
    {
      if conv in broken {
        return false;
      }
      ok := !refused && Flushable(challenges, conv);
      if ok {
        Settle(conv, if commits then Commits else Flushes);
      } else {
        Settle(conv, RollsBack);
        broken := broken + {conv};
      }
    }

    /** The last flush of a turn, and the commit or the rollback of its session. */
    method EndTurn(conv: Conv, aborts: bool)
      modifies this
      ensures State() == AfterEnd(old(State()), conv, aborts)
    {
      if aborts || conv in broken {
        Settle(conv, RollsBack);
        broken := broken - {conv};
      } else {
        var flushed := Flush(conv, false, false);
        Settle(conv, if flushed then Commits else RollsBack);
        broken := broken - {conv};
      }
    }

    /** The send_customer_otp branch. The row is committed before delivery is tried. */
    method SendCustomerOtp(s: Send) returns (result: SendResult)
      modifies this
      ensures result == SendOutcome(old(State()), s)
      ensures State() == AfterSend(mac, old(State()), s)
    {
      if s.conv in broken {
        return Unavailable;
      }
      if s.leadId.None? {
        return NoLead;
      }
      var recent := SumOf(CountsSince(s.conv, s.now - HOUR), challenges);
      if recent >= MAX_RECENT {
        return LimitReached;
      }
      RetireIsPending(challenges, s.conv, s.now);
      challenges := Retire(challenges, s.conv, s.now);
      var flushed := Flush(s.conv, true, false);
      if !flushed {
        return Unavailable;
      }
      var hash, zero := Digest(mac, s.conv, s.leadId.value, s.code), Cols(0, None);
      challenges := challenges + [Challenge(s.conv, s.leadId.value, hash, s.now + CODE_LIFE, s.createdAt, zero, zero, zero)];
      if s.delivery.Delivered? {
        return Sent;
      }
      var last, used := |challenges| - 1, Cols(0, Some(s.delivery.at));
      challenges := challenges[last := challenges[last].(kept := used, stored := used, held := used)];
      return SendFailed;
    }

    /** The verify_customer_otp branch: what it changes stays in memory. */
    method VerifyCustomerOtp(k: Check) returns (result: VerifyResult)
      modifies this
      ensures result == CheckOutcome(mac, old(State()), k)
      ensures State() == AfterCheck(mac, old(State()), k)
    {
      if k.code.None? {
        return InvalidInput;
      }
      if k.conv in broken {
        return NotChecked;
      }
      var found := Latest(challenges, k.conv, k.now);
      if found.None? {
        return NoActiveCode;
      }
      var i := found.value;
      var c := challenges[i];
      var held := c.held.(attempts := c.held.attempts + 1);
      if c.codeHash != Digest(mac, k.conv, c.leadId, k.code.value) {
        if held.attempts >= MAX_ATTEMPTS {
          held := held.(usedAt := Some(k.now));
        }
        challenges := challenges[i := c.(held := held)];
        return Incorrect(i);
      }
      challenges := challenges[i := c.(held := held.(usedAt := Some(k.now)))];
      grants := grants[k.conv := Grant(c.leadId, k.now + GRANT_LIFE)];
      return Verified(i);
    }

    /** A private tool finds the verified lead gone and clears the verification. */
    method DropVerification(conv: Conv)
      modifies this`grants
      ensures State() == AfterDrop(old(State()), conv)
      ensures forall now :: !IsVerified(State(), conv, now)
      ensures forall other, now :: other != conv ==> IsVerified(State(), other, now) == old(IsVerified(State(), other, now))
    {
      if conv !in broken {
        grants := grants - {conv};
      }
    }
  }
}
