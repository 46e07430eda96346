/** Named leases: one holder at a time for a name, until it lets go or its time is up. */
module NamedLeases {
  import opened Outcomes
  import opened QueueJobs

  datatype Lease = Lease(holder: string, acquiredAt: Stamp, expiresAt: Stamp)

  datatype Grant = Grant(lease: Lease, renewed: bool)

  type Leases = map<string, Lease>

  // ---- the file a name is kept in --------------------------------------------------

  predicate IsSafe(c: char) {
    'A' <= c <= 'Z' || 'a' <= c <= 'z' || '0' <= c <= '9' || c == '.' || c == '_' || c == '-'
  }

  /** Every run of other characters becomes one underscore. */
  function Replaced(name: string): string {
    if name == "" then ""
    else if IsSafe(name[0]) then [name[0]] + Replaced(name[1..])
    else if |name| > 1 && !IsSafe(name[1]) then Replaced(name[1..])
    else "_" + Replaced(name[1..])
  }

  function Slug(name: string): string {
    if Replaced(name) == "" then "_" else Replaced(name)
  }

  lemma {:induction false} SafeNamesAreTheirOwn(name: string)
    requires forall c | c in name :: IsSafe(c)
    ensures Replaced(name) == name
  {
    if name != "" {
      assert name[0] in name;
      SafeNamesAreTheirOwn(name[1..]);
      assert name == [name[0]] + name[1..];
    }
  }

  lemma {:induction false} SlugsAreSafe(name: string)
    ensures forall c | c in Replaced(name) :: IsSafe(c)
  {
    if name != "" {
      SlugsAreSafe(name[1..]);
    }
  }

  /** A name keeps its own file exactly when it is not empty and holds only safe characters: any other
      shares the file of the safe name it is turned into. */
  lemma SlugIsItsOwnExactly(name: string)
    ensures Slug(name) == name <==> name != "" && forall c | c in name :: IsSafe(c)
    ensures Slug(Slug(name)) == Slug(name)
  {
    SlugsAreSafe(name);
    SafeNamesAreTheirOwn(Slug(name));
    if name != "" && forall c | c in name :: IsSafe(c) {
      SafeNamesAreTheirOwn(name);
    }
  }

  // ---- acquiring and releasing -----------------------------------------------------

  /** Somebody else holds an unexpired lease. */
  predicate HeldByOther(leases: Leases, key: string, holder: string, now: Stamp) {
    key in leases && leases[key].holder != holder && leases[key].expiresAt > now
  }

  function Acquire(leases: Leases, key: string, holder: string, clock: int, ttl: int): (Leases, Option<Grant>) {
    var now := Iso(clock);
    if HeldByOther(leases, key, holder, now) then (leases, None)
    else
      var renewed := key in leases && leases[key].holder == holder;
      var lease := Lease(holder, if renewed then leases[key].acquiredAt else now, IsoPlus(clock, Max(MICROS, ttl)));
      (leases[key := lease], Some(Grant(lease, renewed)))
  }

  function Release(leases: Leases, key: string, holder: string): (Leases, bool) {
    if key !in leases || leases[key].holder != holder then (leases, false) else (leases - {key}, true)
  }

  /** The one statement of the SQL store: insert, or update where the holder is the same or the lease expired. */
  function SqlAcquire(leases: Leases, key: string, holder: string, clock: int, ttl: int): (Leases, Option<Grant>) {
    var now, expires := Iso(clock), IsoPlus(clock, Max(MICROS, ttl));
    if key !in leases then
      var lease := Lease(holder, now, expires);
      (leases[key := lease], Some(Grant(lease, lease.acquiredAt != now)))
    else if leases[key].holder == holder || leases[key].expiresAt <= now then
      var lease := Lease(holder, if leases[key].holder == holder then leases[key].acquiredAt else now, expires);
      (leases[key := lease], Some(Grant(lease, lease.acquiredAt != now)))
    else (leases, None)
  }

  class LeaseStore {
    var leases: Leases

    method AcquireLease(name: string, holder: string, clock: int, ttl: int) returns (r: Option<Grant>)
      modifies this
      ensures (leases, r) == Acquire(old(leases), Slug(name), holder, clock, ttl)
    {
      var key := Slug(name);
      var now := Iso(clock);
      if key in leases && leases[key].holder != holder && leases[key].expiresAt > now {
        return None;
      }
      var renewed := key in leases && leases[key].holder == holder;
      var lease := Lease(holder, if renewed then leases[key].acquiredAt else now, IsoPlus(clock, Max(MICROS, ttl)));
      leases := leases[key := lease];
      r := Some(Grant(lease, renewed));
    }

    method ReleaseLease(name: string, holder: string) returns (ok: bool)
      modifies this
      ensures (leases, ok) == Release(old(leases), Slug(name), holder)
      ensures ok <==> Slug(name) in old(leases) && old(leases)[Slug(name)].holder == holder
      ensures leases == if ok then old(leases) - {Slug(name)} else old(leases)
    {
      var key := Slug(name);
      if key !in leases || leases[key].holder != holder {
        return false;
      }
      leases := leases - {key};
      ok := true;
    }
  }

  /** Both stores grant on the same conditions and write the same lease. They tell a renewal apart in
      different ways, and disagree exactly on one made in the very second the lease was first taken. */
  lemma SqlGrantsAlike(leases: Leases, key: string, holder: string, clock: int, ttl: int)
    ensures var (after, r) := Acquire(leases, key, holder, clock, ttl);
            var (sqlAfter, sqlR) := SqlAcquire(leases, key, holder, clock, ttl);
            && sqlAfter == after && (r.Some? <==> sqlR.Some?)
            && (r.Some? ==> sqlR.value.lease == r.value.lease)
            && (r.Some? ==> (sqlR.value.renewed == r.value.renewed <==>
                  !(key in leases && leases[key].holder == holder && leases[key].acquiredAt == Iso(clock))))
  {
  }

  /** The answer is a lease that starts now, whoever may have held the name before. */
  predicate StartsAnew(leases: Leases, key: string, holder: string, clock: int, ttl: int) {
    var lasts := if ttl > 1_000_000 then ttl else 1_000_000;
    Acquire(leases, key, holder, clock, ttl).1 ==
      Some(Grant(Lease(holder, clock / 1_000_000, (clock + lasts) / 1_000_000), false))
  }

  /** Only the holder on file is told it let go, and then anyone who asks is given the name at once, at
      whatever clock. A release by anyone else changes nothing, and no release touches another name. */
  lemma ReleaseFreesTheName(leases: Leases, key: string, holder: string)
    ensures var (after, ok) := Release(leases, key, holder);
            && (ok <==> key in leases && leases[key].holder == holder)
            && (ok ==> forall other, clock, ttl :: StartsAnew(after, key, other, clock, ttl))
            && (!ok ==> after == leases)
            && (forall name | name != key ::
                  (name in after <==> name in leases) && (name in leases ==> after[name] == leases[name]))
  {
  }

  // ---- runs ------------------------------------------------------------------------

  datatype Call =
    | AcquireCall(key: string, holder: string, clock: int, ttl: int)
    | ReleaseCall(key: string, holder: string, clock: int)

  function Next(leases: Leases, call: Call): Leases {
    match call
    case AcquireCall(key, holder, clock, ttl) => Acquire(leases, key, holder, clock, ttl).0
    case ReleaseCall(key, holder, _) => Release(leases, key, holder).0
  }

  /** From no leases at all, with a clock that does not go back. */
  ghost predicate Run(states: seq<Leases>, calls: seq<Call>) {
    && |states| == |calls| + 1
    && states[0] == map[]
    && (forall i | 0 <= i < |calls| :: states[i + 1] == Next(states[i], calls[i]))
    && (forall i, j | 0 <= i < j < |calls| :: calls[i].clock <= calls[j].clock)
  }

  lemma OtherNamesStay(leases: Leases, call: Call, name: string)
    requires call.key != name
    ensures name in Next(leases, call) <==> name in leases
    ensures name in leases ==> Next(leases, call)[name] == leases[name]
  {
  }

  lemma {:induction false} NoLeaseAfterRelease(states: seq<Leases>, calls: seq<Call>, m: nat, n: nat, key: string)
    requires Run(states, calls) && m < n < |states|
    requires calls[m].ReleaseCall? && calls[m].key == key
    requires key in states[m] && states[m][key].holder == calls[m].holder
    requires forall i | m < i < n :: !(calls[i].AcquireCall? && calls[i].key == key)
    ensures key !in states[n]
  {
    if m + 1 < n {
      NoLeaseAfterRelease(states, calls, m, n - 1, key);
      if calls[n - 1].key != key {
        OtherNamesStay(states[n - 1], calls[n - 1], key);
      }
      assert states[n] == Next(states[n - 1], calls[n - 1]);
    } else {
      assert states[n] == Next(states[m], calls[m]);
    }
  }

  /** Over a run, once its holder has released a name, the next process that asks for it gets a new lease from
      that moment, whatever was done about other names in between. */
  lemma ReleasedIsFree(states: seq<Leases>, calls: seq<Call>, m: nat, n: nat, key: string)
    requires Run(states, calls) && m < n < |calls|
    requires calls[m].ReleaseCall? && calls[m].key == key
    requires key in states[m] && states[m][key].holder == calls[m].holder
    requires calls[n].AcquireCall? && calls[n].key == key
    requires forall i | m < i < n :: !(calls[i].AcquireCall? && calls[i].key == key)
    ensures StartsAnew(states[n], key, calls[n].holder, calls[n].clock, calls[n].ttl)
    ensures key in states[n + 1] && states[n + 1][key].holder == calls[n].holder
    ensures states[n + 1][key].acquiredAt == calls[n].clock / 1_000_000
  {
    NoLeaseAfterRelease(states, calls, m, n, key);
    assert states[n + 1] == Next(states[n], calls[n]);
  }

  /** A release by anyone but the holder on file leaves every lease as it is. */
  lemma StrangersReleaseNothing(states: seq<Leases>, calls: seq<Call>, m: nat)
    requires Run(states, calls) && m < |calls| && calls[m].ReleaseCall?
    requires calls[m].key in states[m] ==> states[m][calls[m].key].holder != calls[m].holder
    ensures states[m + 1] == states[m]
  {
    assert states[m + 1] == Next(states[m], calls[m]);
  }

  predicate Granted(leases: Leases, call: Call, key: string, holder: string) {
    call.AcquireCall? && call.key == key && call.holder == holder
      && Acquire(leases, key, holder, call.clock, call.ttl).1.Some?
  }

  predicate LetsGo(call: Call, key: string, holder: string) {
    call.ReleaseCall? && call.key == key && call.holder == holder
  }

  /** The holder was granted the lease by call `k`, has neither renewed nor released it since, and the
      time it was granted for is not over. */
  ghost predicate Trusts(states: seq<Leases>, calls: seq<Call>, n: nat, key: string, holder: string, now: Stamp, k: nat)
    requires |states| == |calls| + 1 && n < |states|
  {
    && k < n
    && Granted(states[k], calls[k], key, holder)
    && IsoPlus(calls[k].clock, Max(MICROS, calls[k].ttl)) > now
    && forall i | k < i < n :: !Granted(states[i], calls[i], key, holder) && !LetsGo(calls[i], key, holder)
  }

  /** The lease a holder trusts in is the one on file, whatever the others have tried. */
  lemma {:induction false} TrustIsFounded(states: seq<Leases>, calls: seq<Call>, n: nat,
                                          key: string, holder: string, now: Stamp, k: nat)
    requires Run(states, calls) && n < |states| && Trusts(states, calls, n, key, holder, now, k)
    requires forall i | 0 <= i < n :: Iso(calls[i].clock) <= now
    ensures key in states[n] && states[n][key].holder == holder
    ensures states[n][key].expiresAt == IsoPlus(calls[k].clock, Max(MICROS, calls[k].ttl))
    decreases n
  {
    if k < n - 1 {
      TrustIsFounded(states, calls, n - 1, key, holder, now, k);
      assert states[n] == Next(states[n - 1], calls[n - 1]);
    } else {
      assert states[n] == Next(states[k], calls[k]);
    }
  }

  /** At no moment do two processes both trust in an unexpired, unreleased lease of one name. */
  lemma OneHolderAtATime(states: seq<Leases>, calls: seq<Call>, n: nat, key: string, now: Stamp,
                         first: string, k: nat, second: string, l: nat)
    requires Run(states, calls) && n < |states|
    requires forall i | 0 <= i < n :: Iso(calls[i].clock) <= now
    requires Trusts(states, calls, n, key, first, now, k) && Trusts(states, calls, n, key, second, now, l)
    ensures first == second
  {
    TrustIsFounded(states, calls, n, key, first, now, k);
    TrustIsFounded(states, calls, n, key, second, now, l);
  }

  /** A fresh grant is good at the moment it is made, however short a time was asked for. */
  lemma GrantsLast(leases: Leases, key: string, holder: string, clock: int, ttl: int)
    requires Acquire(leases, key, holder, clock, ttl).1.Some?
    ensures Acquire(leases, key, holder, clock, ttl).1.value.lease.expiresAt > Iso(clock)
  {
    var time := Max(MICROS, ttl);
    assert (clock + time) / MICROS >= (clock + MICROS) / MICROS == clock / MICROS + 1;
  }

  /** While the same process holds a name, renewals never move the moment it took over. */
  lemma {:induction false} RenewalsKeepTheStart(states: seq<Leases>, calls: seq<Call>, m: nat, n: nat,
                                                key: string, holder: string)
    requires Run(states, calls) && m <= n < |states|
    requires forall i | m <= i <= n :: key in states[i] && states[i][key].holder == holder
    ensures states[n][key].acquiredAt == states[m][key].acquiredAt
  {
    if m < n {
      RenewalsKeepTheStart(states, calls, m, n - 1, key, holder);
      assert states[n] == Next(states[n - 1], calls[n - 1]);
    }
  }
}
