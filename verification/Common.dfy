/** Small pieces shared by the other modules. */
module Common {

  datatype Option<+T> = None | Some(value: T)

  const TWO_64: nat := 0x1_0000_0000_0000_0000

  /** Subtraction of two `uint64_t` clock readings: it wraps instead of going negative. */
  function Minus64(a: nat, b: nat): nat
  {
    (a - b) % TWO_64
  }

  /** The time between two readings, with 2^64 more if the clock went back in between. */
  function Elapsed(since: nat, now: nat): nat
    requires since < 0x1_0000_0000_0000_0000
  {
    if since <= now then now - since else now + 0x1_0000_0000_0000_0000 - since
  }

  lemma Minus64IsElapsed(since: nat, now: nat)
    requires since < 0x1_0000_0000_0000_0000 && now < 0x1_0000_0000_0000_0000
    ensures Minus64(now, since) == Elapsed(since, now)
  {
  }

  /** The caller of an operation, as far as access checks look at it. */
  datatype UserInfo = UserInfo(root: bool, email: string)

  predicate MayTouch(user: UserInfo, owner: string)
  {
    user.root || user.email == owner
  }

  function LowerChar(c: char): char
  {
    if 'A' <= c <= 'Z' then (c as int + 32) as char else c
  }

  /** Poco::toLower on ASCII text. */
  function ToLower(s: string): (r: string)
    ensures |r| == |s| && forall i | 0 <= i < |s| :: r[i] == LowerChar(s[i])
  {
    seq(|s|, i requires 0 <= i < |s| => LowerChar(s[i]))
  }
}
