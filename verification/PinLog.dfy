/**
 * Counting wrong PINs in the history of a device, in two ways: since the counter
 * was last erased or the device last provisioned, and since the counter was last
 * erased, provisionings disregarded.
 */
module PinLog {
  import AbRecords
  import opened Session

  /** Wrong PINs evaluated since the counter was last erased or the device last provisioned. */
  function Spent(log: Log): nat {
    match log
    case Empty => 0
    case Snoc(earlier, last) =>
      if last.Wrong? then Spent(earlier) + 1
      else if last.CounterErased? || last.Provisioned? then 0
      else Spent(earlier)
  }

  /** Wrong PINs evaluated since the counter was last erased. */
  function WrongSinceErased(log: Log): nat {
    match log
    case Empty => 0
    case Snoc(earlier, last) =>
      if last.Wrong? then WrongSinceErased(earlier) + 1
      else if last.CounterErased? then 0
      else WrongSinceErased(earlier)
  }

  /** The retry limit of the last provisioning. */
  function LimitInForce(log: Log): nat {
    match log
    case Empty => 0
    case Snoc(earlier, last) => if last.Provisioned? then last.maxRetries else LimitInForce(earlier)
  }

  /** How often a PIN opened the key record. */
  function Rights(log: Log): nat {
    match log
    case Empty => 0
    case Snoc(earlier, last) => Rights(earlier) + if last.Right? then 1 else 0
  }

  /** How many certificates the history contains. */
  function Certificates(log: Log): nat {
    match log
    case Empty => 0
    case Snoc(earlier, last) => Certificates(earlier) + if last.Issued? then 1 else 0
  }

  /** How many times the session entered lockout. */
  function Lockouts(log: Log): nat {
    match log
    case Empty => 0
    case Snoc(earlier, last) => Lockouts(earlier) + if last.EnteredLockout? then 1 else 0
  }

  /** The last provisioning set a limit that the wrong PINs since the last erasure had already reached. */
  predicate Overdrawn(log: Log) {
    match log
    case Empty => false
    case Snoc(earlier, last) =>
      if last.CounterErased? then false
      else if last.Provisioned? then 0 < WrongSinceErased(earlier) && last.maxRetries <= WrongSinceErased(earlier)
      else Overdrawn(earlier)
  }

  /** At every moment of the history the wrong PINs spent were within the limit in force. */
  ghost predicate BudgetKept(log: Log) {
    && Spent(log) <= LimitInForce(log)
    && (log.Snoc? ==> BudgetKept(log.earlier))
  }

  /** The same counted from erasures alone, at every moment at which the account is not overdrawn. */
  ghost predicate BudgetSinceErasureKept(log: Log) {
    && (Overdrawn(log) || WrongSinceErased(log) <= LimitInForce(log))
    && (log.Snoc? ==> BudgetSinceErasureKept(log.earlier))
  }

  ghost predicate Sound(log: Log) {
    BudgetKept(log) && BudgetSinceErasureKept(log)
  }

  /** One more wrong PIN stays within both bounds. */
  ghost predicate HasRoom(log: Log) {
    && Spent(log) < LimitInForce(log)
    && (Overdrawn(log) || WrongSinceErased(log) < LimitInForce(log))
  }

  /** Both counts are on the attempt counter, which may be full. */
  predicate OnCounter(log: Log, count: nat) {
    && Spent(log) <= count
    && (WrongSinceErased(log) <= count || count >= AbRecords.SECTOR_LEN)
  }

  predicate SameCounts(log: Log, next: Log) {
    && Spent(next) == Spent(log) && WrongSinceErased(next) == WrongSinceErased(log)
    && LimitInForce(next) == LimitInForce(log) && Overdrawn(next) == Overdrawn(log)
  }

  lemma QuietNote(log: Log, o: Observation)
    requires !o.Wrong? && !o.CounterErased? && !o.Provisioned?
    ensures SameCounts(log, Snoc(log, o))
    ensures Sound(log) ==> Sound(Snoc(log, o))
    ensures HasRoom(log) ==> HasRoom(Snoc(log, o))
  {
  }

  lemma ErasureNote(log: Log)
    ensures var next := Snoc(log, CounterErased);
            && Spent(next) == WrongSinceErased(next) == 0 && !Overdrawn(next)
            && LimitInForce(next) == LimitInForce(log)
            && (Sound(log) ==> Sound(next))
            && (HasRoom(log) ==> HasRoom(next))
  {
  }

  lemma ProvisionNote(log: Log, limit: nat)
    ensures var next := Snoc(log, Provisioned(limit));
            && Spent(next) == 0 && WrongSinceErased(next) == WrongSinceErased(log) && LimitInForce(next) == limit
            && (Sound(log) ==> Sound(next))
            && (limit >= 1 ==> HasRoom(next))
  {
  }

  lemma WrongNote(log: Log, ms: nat)
    requires HasRoom(log)
    ensures var next := Snoc(log, Wrong(ms));
            && Spent(next) == Spent(log) + 1 && WrongSinceErased(next) == WrongSinceErased(log) + 1
            && LimitInForce(next) == LimitInForce(log) && Overdrawn(next) == Overdrawn(log)
            && (Sound(log) ==> Sound(next))
  {
  }

  /** An overdrawn account has no wrong PIN left when counted from erasures alone. */
  lemma {:induction false} OverdrawnMeansReached(log: Log)
    ensures Overdrawn(log) ==> 0 < WrongSinceErased(log) && LimitInForce(log) <= WrongSinceErased(log)
  {
    if log.Snoc? {
      OverdrawnMeansReached(log.earlier);
    }
  }

  /** The first count never exceeds the second. */
  lemma {:induction false} SpentIsFewer(log: Log)
    ensures Spent(log) <= WrongSinceErased(log)
  {
    if log.Snoc? {
      SpentIsFewer(log.earlier);
    }
  }
}
