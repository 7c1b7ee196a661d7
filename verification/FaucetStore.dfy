/** The faucet's tables and the statements on them (argus/faucet/store.py). */
module FaucetStore {
  import opened Options

  const DAY_SECONDS := 86400.0
  const USAGE_RETENTION_DAYS: int := 365

  /** The UTC day number of a time. */
  function DayOf(ts: real): int {
    (ts / DAY_SECONDS).Floor
  }

  lemma DayMonotone(a: real, b: real)
    requires a <= b
    ensures DayOf(a) <= DayOf(b)
  {
  }

  datatype Payout = Payout(net: string, sats: nat, address: string)
  datatype IpKey = IpKey(net: string, ip: string)
  datatype DayKey = DayKey(net: string, day: int)
  datatype NonceKey = NonceKey(net: string, nonce: string)
  datatype PowKey = PowKey(net: string, ip: string, day: int)

  datatype Tables = Tables(
    payouts: seq<Payout>,
    ipClaims: map<IpKey, real>,
    usage: map<DayKey, nat>,
    nonces: map<NonceKey, real>,
    powClaims: map<PowKey, nat>,
    lastRun: real)

  const EMPTY := Tables([], map[], map[], map[], map[], 0.0)

  function CountOf<K>(m: map<K, nat>, k: K): nat {
    if k in m then m[k] else 0
  }

  function TimeOf<K>(m: map<K, real>, k: K): Option<real> {
    if k in m then Some(m[k]) else None
  }

  /** UPDATE ... SET count = count + 1: nothing when the row is missing. */
  function Bumped<K>(m: map<K, nat>, k: K): map<K, nat> {
    if k in m then m[k := m[k] + 1] else m
  }

  /** INSERT ... ON CONFLICT DO UPDATE SET count = count + 1. */
  function Upserted<K>(m: map<K, nat>, k: K): map<K, nat> {
    m[k := CountOf(m, k) + 1]
  }

  function WithoutIps(m: map<IpKey, real>, cutoff: real): map<IpKey, real> {
    map k | k in m && !(m[k] < cutoff) :: m[k]
  }

  function WithoutNonces(m: map<NonceKey, real>, cutoff: real): map<NonceKey, real> {
    map k | k in m && !(m[k] < cutoff) :: m[k]
  }

  function WithoutPow(m: map<PowKey, nat>, cutoff: int): map<PowKey, nat> {
    map k | k in m && !(k.day < cutoff) :: m[k]
  }

  function WithoutUsage(m: map<DayKey, nat>, cutoff: int): map<DayKey, nat> {
    map k | k in m && !(k.day < cutoff) :: m[k]
  }

  /** The usage rows that outlive a purge: those of the retained days. */
  function PurgedUsage(t: Tables, now: real): Tables {
    t.(usage := WithoutUsage(t.usage, DayOf(now) - USAGE_RETENTION_DAYS))
  }

  /** What outlives a purge elsewhere: live nonces, yesterday's and today's counts, a day of visits. */
  function PurgedShortLived(t: Tables, now: real): Tables {
    PurgedIps(PurgedPow(PurgedNonces(t, now), now), now)
  }

  function PurgedNonces(t: Tables, now: real): Tables {
    t.(nonces := WithoutNonces(t.nonces, now))
  }

  function PurgedPow(t: Tables, now: real): Tables {
    t.(powClaims := WithoutPow(t.powClaims, DayOf(now) - 1))
  }

  function PurgedIps(t: Tables, now: real): Tables {
    t.(ipClaims := WithoutIps(t.ipClaims, now - DAY_SECONDS))
  }

  /**
    What a purge leaves of every table: rows of the last 365 days before today in the usage
    log, nonces that have not expired, counts from yesterday on, claims at most a day old.
   */
  ghost predicate Outlives(t: Tables, left: Tables, now: real) {
    && left.payouts == t.payouts && left.lastRun == t.lastRun
    && (forall k :: k in left.usage <==> k in t.usage && DayOf(now) - k.day <= 365)
    && (forall k :: k in left.usage ==> left.usage[k] == t.usage[k])
    && (forall k :: k in left.nonces <==> k in t.nonces && now <= t.nonces[k])
    && (forall k :: k in left.nonces ==> left.nonces[k] == t.nonces[k])
    && (forall k :: k in left.powClaims <==> k in t.powClaims && DayOf(now) - k.day <= 1)
    && (forall k :: k in left.powClaims ==> left.powClaims[k] == t.powClaims[k])
    && (forall k :: k in left.ipClaims <==> k in t.ipClaims && now - t.ipClaims[k] <= 86400.0)
    && (forall k :: k in left.ipClaims ==> left.ipClaims[k] == t.ipClaims[k])
  }

  /** The database; every method is one committed operation of the source. */
  class FaucetStore {
    var payouts: seq<Payout>
    var ipClaims: map<IpKey, real>
    var usage: map<DayKey, nat>
    var nonces: map<NonceKey, real>
    var powClaims: map<PowKey, nat>
    var lastRun: real

    function Snapshot(): Tables
      reads this
    {
      Tables(payouts, ipClaims, usage, nonces, powClaims, lastRun)
    }

    constructor ()
      ensures Snapshot() == EMPTY
    {
      payouts, ipClaims, usage, nonces, powClaims, lastRun := [], map[], map[], map[], map[], 0.0;
    }

    method Record(p: Payout)
      modifies this
      ensures Snapshot() == old(Snapshot()).(payouts := old(payouts) + [p])
    {
      payouts := payouts + [p];
    }

    method RecordIpClaim(k: IpKey, moment: real)
      modifies this
      ensures Snapshot() == old(Snapshot()).(ipClaims := old(ipClaims)[k := moment])
    {
      ipClaims := ipClaims[k := moment];
    }

    /** Counts one withdrawal, whether or not the day already has a row. */
    method IncrementUsage(net: string, ts: real)
      modifies this
      ensures Snapshot() == old(Snapshot()).(usage := Upserted(old(usage), DayKey(net, DayOf(ts))))
    {
      var k := DayKey(net, DayOf(ts));
      var updated := k in usage;
      usage := Bumped(usage, k);
      if !updated {
        usage := Upserted(usage, k);
      }
    }

    method RecordPowClaim(net: string, ip: string, ts: real)
      modifies this
      ensures Snapshot() == old(Snapshot()).(powClaims := Upserted(old(powClaims), PowKey(net, ip, DayOf(ts))))
    {
      var k := PowKey(net, ip, DayOf(ts));
      var updated := k in powClaims;
      powClaims := Bumped(powClaims, k);
      if !updated {
        powClaims := Upserted(powClaims, k);
      }
    }

    /** Spends a nonce; false when the unique index already holds it. */
    method RedeemNonce(k: NonceKey, expiresAt: real) returns (won: bool)
      modifies this
      ensures won <==> k !in old(nonces)
      ensures Snapshot() == if won then old(Snapshot()).(nonces := old(nonces)[k := expiresAt]) else old(Snapshot())
    {
      won := k !in nonces;
      if won {
        nonces := nonces[k := expiresAt];
      }
    }

    method RunMaintenance(now: real)
      modifies this
      ensures Snapshot() == PurgedUsage(PurgedShortLived(old(Snapshot()), now), now)
      ensures Outlives(old(Snapshot()), Snapshot(), now)
    {
      nonces := WithoutNonces(nonces, now);
      powClaims := WithoutPow(powClaims, DayOf(now) - 1);
      ipClaims := WithoutIps(ipClaims, now - DAY_SECONDS);
      usage := WithoutUsage(usage, DayOf(now) - USAGE_RETENTION_DAYS);
    }

    /** The once-per-interval claim of the maintenance run. */
    method ClaimMaintenanceRun(moment: real, interval: real) returns (claimed: bool)
      modifies this
      ensures claimed <==> old(lastRun) <= moment - interval
      ensures Snapshot() == if claimed then old(Snapshot()).(lastRun := moment) else old(Snapshot())
    {
      claimed := lastRun <= moment - interval;
      if claimed {
        lastRun := moment;
      }
    }
  }
}
