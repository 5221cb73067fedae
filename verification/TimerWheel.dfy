/** The timer wheel (src/event/TimerWheel.cxx, src/event/TimerWheel.hxx) and
    the timers' Schedule and Cancel (src/event/CoarseTimerEvent.cxx). Time is
    counted in nanoseconds since the epoch of the steady clock. */
module TimerWheel {
  import opened Wrappers

  const RESOLUTION: nat := 1_000_000_000
  const N_BUCKETS: nat := 120
  const SPAN: nat := 120_000_000_000

  /** A linked timer. */
  datatype Timer = Timer(id: nat, due: int)

  /** What user code, including a timer's callback, can do to timers. */
  datatype Op = Schedule(id: nat, due: int) | Cancel(id: nat)

  /** A callback that was invoked, when, and from which kind of list; for the
      ready list, since when at the latest it had not been empty. */
  datatype Firing = Firing(timer: Timer, at: nat, fromReady: bool, since: nat)

  // ---- Bucket arithmetic ----

  /** Which RESOLUTION a point in time is in. */
  function Tick(t: nat): nat {
    t / RESOLUTION
  }

  function BucketIndexAt(t: nat): (i: nat)
    ensures i < N_BUCKETS
  {
    Tick(t) % N_BUCKETS
  }

  function GetBucketStartTime(t: nat): nat {
    t - t % RESOLUTION
  }

  function NextBucketIndex(i: nat): nat {
    (i + 1) % N_BUCKETS
  }

  /** The end of the RESOLUTION that a point in time is in. */
  function BucketEnd(t: nat): nat {
    RESOLUTION * (Tick(t) + 1)
  }

  /** The bucket j steps after the one of tick k. */
  function Around(k: nat, j: nat): (i: nat)
    ensures i < N_BUCKETS
  {
    (k + j) % N_BUCKETS
  }

  lemma StartTime(t: nat)
    ensures GetBucketStartTime(t) == RESOLUTION * Tick(t)
    ensures GetBucketStartTime(t) <= t < BucketEnd(t) <= t + RESOLUTION
    ensures Tick(GetBucketStartTime(t)) == Tick(t)
  {
  }

  lemma BeforeStart(due: nat, now: nat)
    ensures due < GetBucketStartTime(now) <==> Tick(due) < Tick(now)
    ensures due <= now ==> Tick(due) <= Tick(now)
  {
  }

  lemma AroundNext(k: nat, j: nat)
    ensures NextBucketIndex(Around(k, j)) == Around(k, j + 1)
  {
  }

  /** One step on, the end is reached if and only if that was the last one. */
  lemma AroundStep(k: nat, j: nat, m: nat)
    requires j < m <= N_BUCKETS
    ensures var i := NextBucketIndex(Around(k, j)); i == Around(k, j + 1) && (i == Around(k, m) <==> j + 1 == m)
  {
    AroundNext(k, j);
    if j + 1 < m {
      AroundOnce(k, j + 1, m);
    }
  }

  /** Going around, a bucket is met again after N_BUCKETS steps and not before. */
  lemma AroundOnce(k: nat, a: nat, b: nat)
    requires a < b <= a + N_BUCKETS
    ensures Around(k, a) == Around(k, b) <==> b == a + N_BUCKETS
  {
    var x, y := (k + a) / N_BUCKETS, (k + b) / N_BUCKETS;
    assert k + a == N_BUCKETS * x + Around(k, a);
    assert k + b == N_BUCKETS * y + Around(k, b);
  }

  /** Within one turn, every tick is at its distance. */
  lemma AroundAll(k: nat, i: nat) returns (j: nat)
    requires i < N_BUCKETS
    ensures j < N_BUCKETS && Around(k, j) == i
  {
    var r := k % N_BUCKETS;
    j := if i >= r then i - r else i + N_BUCKETS - r;
    var x := k / N_BUCKETS;
    assert k == N_BUCKETS * x + r;
    if i >= r {
      assert k + j == N_BUCKETS * x + i;
    } else {
      assert k + j == N_BUCKETS * (x + 1) + i;
    }
  }

  // ---- Lists of timers ----

  function Without(xs: seq<Timer>, id: nat): seq<Timer> {
    if xs == [] then []
    else if xs[0].id == id then Without(xs[1..], id)
    else [xs[0]] + Without(xs[1..], id)
  }

  /** How often a timer is in a list. */
  ghost function Count(xs: seq<Timer>, t: Timer): nat {
    if xs == [] then 0 else (if xs[0] == t then 1 else 0) + Count(xs[1..], t)
  }

  ghost function CountAll(xss: seq<seq<Timer>>, t: Timer): nat {
    if xss == [] then 0 else Count(xss[0], t) + CountAll(xss[1..], t)
  }

  lemma {:induction false} CountSnoc(xs: seq<Timer>, x: Timer, t: Timer)
    ensures Count(xs + [x], t) == Count(xs, t) + (if x == t then 1 else 0)
  {
    if xs != [] {
      CountSnoc(xs[1..], x, t);
      assert (xs + [x])[1..] == xs[1..] + [x];
    }
  }

  lemma {:induction false} CountMember(xs: seq<Timer>, t: Timer)
    ensures Count(xs, t) > 0 <==> t in xs
  {
    if xs != [] {
      CountMember(xs[1..], t);
    }
  }

  lemma {:induction false} WithoutOf(xs: seq<Timer>, id: nat, t: Timer)
    ensures Count(Without(xs, id), t) == if t.id == id then 0 else Count(xs, t)
    ensures Sublist(Without(xs, id), xs)
  {
    if xs != [] {
      WithoutOf(xs[1..], id, t);
    }
  }

  lemma {:induction false} CountEmpty(xss: seq<seq<Timer>>, t: Timer)
    requires AllEmpty(xss)
    ensures CountAll(xss, t) == 0
  {
    if xss != [] {
      CountEmpty(xss[1..], t);
    }
  }

  lemma {:induction false} CountUpdate(xss: seq<seq<Timer>>, i: nat, xs: seq<Timer>, t: Timer)
    requires i < |xss|
    ensures CountAll(xss[i := xs], t) + Count(xss[i], t) == CountAll(xss, t) + Count(xs, t)
  {
    if i == 0 {
      assert xss[i := xs][1..] == xss[1..];
    } else {
      assert xss[i := xs][1..] == xss[1..][i - 1 := xs];
      CountUpdate(xss[1..], i - 1, xs, t);
    }
  }

  function WithoutAll(xss: seq<seq<Timer>>, id: nat): (r: seq<seq<Timer>>)
    ensures |r| == |xss|
    ensures forall i :: 0 <= i < |xss| ==> r[i] == Without(xss[i], id)
  {
    seq(|xss|, i requires 0 <= i < |xss| => Without(xss[i], id))
  }

  lemma {:induction false} WithoutAllOf(xss: seq<seq<Timer>>, id: nat, t: Timer)
    ensures CountAll(WithoutAll(xss, id), t) == if t.id == id then 0 else CountAll(xss, t)
  {
    if xss != [] {
      WithoutOf(xss[0], id, t);
      WithoutAllOf(xss[1..], id, t);
      assert WithoutAll(xss, id)[1..] == WithoutAll(xss[1..], id);
    }
  }

  /** Every timer of the list belongs to bucket i. */
  ghost predicate AllHome(xs: seq<Timer>, i: nat) {
    xs == [] || (xs[0].due >= 0 && BucketIndexAt(xs[0].due) == i && AllHome(xs[1..], i))
  }

  lemma {:induction false} HomeOf(xs: seq<Timer>, i: nat, t: Timer)
    requires AllHome(xs, i) && t in xs
    ensures t.due >= 0 && BucketIndexAt(t.due) == i
  {
    if t != xs[0] {
      HomeOf(xs[1..], i, t);
    }
  }

  lemma {:induction false} HomeSnoc(xs: seq<Timer>, i: nat, t: Timer)
    requires AllHome(xs, i) && t.due >= 0 && BucketIndexAt(t.due) == i
    ensures AllHome(xs + [t], i)
  {
    if xs != [] {
      HomeSnoc(xs[1..], i, t);
      assert (xs + [t])[1..] == xs[1..] + [t];
    }
  }

  lemma {:induction false} HomeWithout(xs: seq<Timer>, i: nat, id: nat)
    requires AllHome(xs, i)
    ensures AllHome(Without(xs, id), i)
  {
    if xs != [] {
      HomeWithout(xs[1..], i, id);
    }
  }

  /** Every timer is in the bucket of its due time. */
  ghost predicate InPlace(buckets: seq<seq<Timer>>) {
    && |buckets| == N_BUCKETS
    && forall i :: 0 <= i < N_BUCKETS ==> AllHome(buckets[i], i)
  }

  ghost predicate AllEmpty(buckets: seq<seq<Timer>>) {
    forall i :: 0 <= i < |buckets| ==> buckets[i] == []
  }

  /** No bucket holds a timer that was due before this time. */
  ghost predicate NoneBefore(buckets: seq<seq<Timer>>, time: nat) {
    forall i, t :: 0 <= i < |buckets| && t in buckets[i] ==> t.due >= time
  }

  /** All that can have happened to the buckets while callbacks ran at a time:
      timers that were cancelled are gone, timers that were added are due later. */
  ghost predicate Evolved(before: seq<seq<Timer>>, after: seq<seq<Timer>>, now: nat) {
    && |before| == |after|
    && forall i, t :: 0 <= i < |after| && t in after[i] ==> t in before[i] || t.due > now
  }

  lemma AddTimer(buckets: seq<seq<Timer>>, t: Timer, now: nat, probe: Timer)
    requires InPlace(buckets) && t.due > now
    ensures var i := BucketIndexAt(t.due);
            var after := buckets[i := buckets[i] + [t]];
            && InPlace(after) && Evolved(buckets, after, now)
            && CountAll(after, probe) == CountAll(buckets, probe) + (if t == probe then 1 else 0)
  {
    var i := BucketIndexAt(t.due);
    CountUpdate(buckets, i, buckets[i] + [t], probe);
    CountSnoc(buckets[i], t, probe);
    HomeSnoc(buckets[i], i, t);
  }

  lemma DropTimer(buckets: seq<seq<Timer>>, id: nat, now: nat)
    requires InPlace(buckets)
    ensures var after := WithoutAll(buckets, id);
            && InPlace(after) && Evolved(buckets, after, now) && Shrunk(buckets, after)
            && (AllEmpty(buckets) ==> AllEmpty(after))
  {
    var after := WithoutAll(buckets, id);
    forall i, t | 0 <= i < |after| && t in after[i] ensures t in buckets[i] {
      WithoutOf(buckets[i], id, t);
    }
    forall i | 0 <= i < N_BUCKETS ensures AllHome(after[i], i) {
      HomeWithout(buckets[i], i, id);
    }
  }

  ghost predicate Sublist(after: seq<Timer>, before: seq<Timer>) {
    |after| <= |before| && forall t :: t in after ==> t in before
  }

  lemma DropCounts(buckets: seq<seq<Timer>>, ready: seq<Timer>, tmp: seq<Timer>, id: nat, t: Timer)
    ensures CountAll(WithoutAll(buckets, id), t) + Count(Without(ready, id), t) + Count(Without(tmp, id), t)
            == if t.id == id then 0 else CountAll(buckets, t) + Count(ready, t) + Count(tmp, t)
    ensures Sublist(Without(ready, id), ready) && Sublist(Without(tmp, id), tmp)
  {
    WithoutAllOf(buckets, id, t);
    WithoutOf(ready, id, t);
    WithoutOf(tmp, id, t);
  }

  /** Timers were only taken out. */
  ghost predicate Shrunk(before: seq<seq<Timer>>, after: seq<seq<Timer>>) {
    |before| == |after| && forall i, t :: 0 <= i < |after| && t in after[i] ==> t in before[i]
  }

  // ---- What callbacks are going to do ----

  function OpCount(script: seq<seq<Op>>): nat {
    if script == [] then 0 else |script[0]| + OpCount(script[1..])
  }

  /** How many operations are about a timer. */
  function NamedIn(ops: seq<Op>, id: nat): nat {
    if ops == [] then 0 else NamedIn(ops[..|ops| - 1], id) + (if ops[|ops| - 1].id == id then 1 else 0)
  }

  /** How many of them schedule it for this time. */
  function ScheduledIn(ops: seq<Op>, t: Timer): (n: nat)
    ensures n <= NamedIn(ops, t.id)
  {
    if ops == [] then 0
    else ScheduledIn(ops[..|ops| - 1], t) + (if ops[|ops| - 1] == Schedule(t.id, t.due) then 1 else 0)
  }

  function Named(script: seq<seq<Op>>, id: nat): nat {
    if script == [] then 0 else NamedIn(script[0], id) + Named(script[1..], id)
  }

  function Scheduled(script: seq<seq<Op>>, t: Timer): nat {
    if script == [] then 0 else ScheduledIn(script[0], t) + Scheduled(script[1..], t)
  }

  /** How often a timer is linked after these operations: the last one that names it
      decides. */
  function Left(ops: seq<Op>, t: Timer, pending: nat): nat {
    if ops == [] then pending
    else LeftBy(ops[|ops| - 1], t, Left(ops[..|ops| - 1], t, pending))
  }

  function LeftBy(op: Op, t: Timer, pending: nat): nat {
    if op == Schedule(t.id, t.due) then 1 else if op.id == t.id then 0 else pending
  }

  lemma OpsSnoc(ops: seq<Op>, k: nat, t: Timer, pending: nat)
    requires k < |ops|
    ensures ScheduledIn(ops[..k + 1], t) == ScheduledIn(ops[..k], t) + (if ops[k] == Schedule(t.id, t.due) then 1 else 0)
    ensures NamedIn(ops[..k + 1], t.id) == NamedIn(ops[..k], t.id) + (if ops[k].id == t.id then 1 else 0)
    ensures Left(ops[..k + 1], t, pending) == LeftBy(ops[k], t, Left(ops[..k], t, pending))
  {
    assert ops[..k + 1][..k] == ops[..k];
  }

  /** What remains of a script after n callbacks. */
  function Remaining(script: seq<seq<Op>>, n: nat): seq<seq<Op>> {
    if n <= |script| then script[n..] else []
  }

  function NextOps(script: seq<seq<Op>>): seq<Op> {
    if script == [] then [] else script[0]
  }

  /** What happened to a timer so far, and what is still to come. */
  datatype Account = Account(inserted: nat, cancelled: nat, scheduled: nat, named: nat)

  /** The timer was inserted exactly as often as some operation scheduled it, and
      cancelled at most as often as an operation named it. */
  ghost predicate Fair(a: Account, b: Account) {
    && a.inserted <= b.inserted && a.cancelled <= b.cancelled
    && b.inserted + b.scheduled == a.inserted + a.scheduled
    && b.inserted + b.named <= a.inserted + a.named && b.cancelled + b.named <= a.cancelled + a.named
  }

  /** How often a timer has run. */
  ghost function CountFired(fired: seq<Firing>, t: Timer): nat {
    if fired == [] then 0
    else CountFired(fired[..|fired| - 1], t) + (if fired[|fired| - 1].timer == t then 1 else 0)
  }

  /** These firings happened at now, none of them before its timer was due. */
  ghost predicate NotEarly(fired: seq<Firing>, from: nat, now: nat) {
    forall k :: from <= k < |fired| ==> fired[k].at == now && fired[k].timer.due <= now
  }

  /** A timer from the ready list ran at the time at which it was put there, any
      other one at most one RESOLUTION after it was due. */
  ghost predicate NotLate(fired: seq<Firing>, from: nat) {
    forall k :: from <= k < |fired| ==>
      fired[k].at <= if fired[k].fromReady then fired[k].since else fired[k].timer.due + RESOLUTION
  }

  /** What can be seen of the wheel from outside; ops counts what callbacks are
      still going to do. */
  datatype View = View(
    buckets: seq<seq<Timer>>, ready: seq<Timer>, waiting: nat, again: bool, ops: nat, ledger: Account, fired: seq<Firing>)
  {
    /** What is in the ready list was put there at this time. */
    ghost predicate Prompt(now: nat) {
      ready == [] || waiting == now
    }

    /** Some operations are still to come. */
    ghost function PutBack(more: seq<Op>, probe: Timer): View {
      this.(ops := ops + |more|,
            ledger := ledger.(scheduled := ledger.scheduled + ScheduledIn(more, probe), named := ledger.named + NamedIn(more, probe.id)))
    }
  }

  lemma NextOpsCount(script: seq<seq<Op>>, t: Timer)
    ensures var ops, rest := NextOps(script), Remaining(script, 1);
            && OpCount(script) == |ops| + OpCount(rest)
            && Scheduled(script, t) == ScheduledIn(ops, t) + Scheduled(rest, t)
            && Named(script, t.id) == NamedIn(ops, t.id) + Named(rest, t.id)
  {
  }

  /** What can happen at a time when timers run. Nothing runs early. Unless the
      loop is told to look again, nothing was inserted. */
  ghost predicate Follows(a: View, b: View, now: nat, inTime: bool) {
    && Fair(a.ledger, b.ledger) && Evolved(a.buckets, b.buckets, now)
    && b.ops <= a.ops && (b.again ==> a.again || b.ops < a.ops)
    && (b.again || (!a.again && Sublist(b.ready, a.ready))) && (a.Prompt(now) ==> b.Prompt(now))
    && a.fired <= b.fired && NotEarly(b.fired, |a.fired|, now) && (inTime ==> NotLate(b.fired, |a.fired|))
  }

  lemma FollowsTrans(a: View, b: View, c: View, now: nat, inTime: bool)
    requires Follows(a, b, now, inTime) && Follows(b, c, now, inTime)
    ensures Follows(a, c, now, inTime)
  {
  }

  lemma FollowsFiring(a: View, b: View, f: Firing, now: nat, inTime: bool)
    requires b == a.(ready := b.ready, fired := a.fired + [f]) && Sublist(b.ready, a.ready)
    requires f.at == now && f.timer.due <= now
    requires inTime ==> now <= if f.fromReady then f.since else f.timer.due + RESOLUTION
    ensures Follows(a, b, now, inTime)
  {
  }

  lemma FollowsEmptied(a: View, i: nat, now: nat, inTime: bool)
    requires i < |a.buckets|
    ensures Follows(a, a.(buckets := a.buckets[i := []]), now, inTime)
  {
  }

  /** The lists and flags of a wheel. */
  datatype Lists = Lists(
    buckets: seq<seq<Timer>>, ready: seq<Timer>, tmp: seq<Timer>, waiting: nat, empty: bool, again: bool)

  /** What n operations can do to them at this time. Unless the loop is told to look
      again, nothing was inserted. */
  ghost predicate Touched(a: Lists, b: Lists, n: nat, now: nat) {
    && Evolved(a.buckets, b.buckets, now) && Sublist(b.tmp, a.tmp) && |b.ready| <= |a.ready| + n
    && (a.ready == [] || a.waiting == now ==> b.ready == [] || b.waiting == now) && (!a.empty ==> !b.empty)
    && (b.again || (!a.again && Sublist(b.ready, a.ready) && Shrunk(a.buckets, b.buckets)))
    && (b.again ==> a.again || n > 0)
  }

  lemma TouchedTrans(a: Lists, b: Lists, c: Lists, n: nat, now: nat)
    requires Touched(a, b, n, now) && Touched(b, c, 1, now)
    ensures Touched(a, c, n + 1, now)
  {
    EvolvedTrans(a.buckets, b.buckets, c.buckets, now);
  }

  lemma EvolvedTrans(a: seq<seq<Timer>>, b: seq<seq<Timer>>, c: seq<seq<Timer>>, now: nat)
    requires Evolved(a, b, now) && Evolved(b, c, now)
    ensures Evolved(a, c, now)
  {
  }

  class Wheel {
    var buckets: seq<seq<Timer>>
    var ready: seq<Timer>
    /** The temporary list of the bucket that is being run. */
    var tmp: seq<Timer>
    var lastTime: nat
    var empty: bool

    /** The event loop's flag: some timer was inserted. */
    var again: bool

    /** What the coming callbacks will do, one entry for each callback; when the
        script is exhausted, they do nothing. */
    var script: seq<seq<Op>>

    /** The script before the first callback. */
    ghost const plan: seq<seq<Op>>

    /** The ledger of one timer, which can be any. */
    ghost const probe: Timer
    ghost var inserted: nat
    ghost var cancelled: nat

    ghost var fired: seq<Firing>
    ghost var lastTick: nat
    ghost var clock: nat

    /** Since when the ready list has not been empty. */
    ghost var waiting: nat

    /** How often the probe is linked. */
    ghost function Pending(): nat
      reads this
    {
      CountAll(buckets, probe) + Count(ready, probe) + Count(tmp, probe)
    }

    ghost function Ledger(): Account
      reads this
    {
      Account(inserted, cancelled, Scheduled(script, probe), Named(script, probe.id))
    }

    ghost function Look(): View
      reads this
    {
      View(buckets, ready, waiting, again, OpCount(script), Ledger(), fired)
    }

    ghost function AllLists(): Lists
      reads this
    {
      Lists(buckets, ready, tmp, waiting, empty, again)
    }

    ghost function Snapshot(sleep: int): Snap
      reads this
    {
      Snap(clock, sleep, Ledger(), Pending(), fired)
    }

    /** Every time it was inserted, the probe is still pending, or was cancelled,
        or has run: it is never lost and never runs twice. */
    ghost predicate Conserved()
      reads this
    {
      inserted == Pending() + cancelled + CountFired(fired, probe) && Pending() <= 1
    }

    /** Holds at all times, also while callbacks run. */
    ghost predicate Inv()
      reads this
    {
      && InPlace(buckets)
      && (forall t :: t in ready ==> t.due <= clock)
      && (empty ==> AllEmpty(buckets))
      && lastTime == RESOLUTION * lastTick && lastTime <= clock
      && Conserved() && script == Remaining(plan, |fired|)
    }

    /** Holds between calls. */
    ghost predicate Valid()
      reads this
    {
      Inv() && tmp == [] && NoneBefore(buckets, lastTime)
    }

    /** What is in the ready list was put there at this time. */
    ghost predicate Prompt(now: nat)
      reads this
    {
      ready == [] || waiting == now
    }

    /** A wheel without timers, and what the callbacks are going to do. */
    constructor (ghost probe: Timer, script: seq<seq<Op>>)
      ensures Valid() && AllEmpty(buckets) && ready == [] && clock == 0 && fired == []
      ensures Pending() == 0 && inserted == cancelled == 0 && this.probe == probe && this.script == plan == script
    {
      buckets := seq(N_BUCKETS, _ => []);
      ready, tmp, lastTime, empty, again := [], [], 0, true, false;
      this.probe, this.script, plan := probe, script, script;
      lastTick, clock, inserted, cancelled, fired, waiting := 0, 0, 0, 0, [], 0;
      new;
      CountEmpty(buckets, probe);
    }

    /** Time goes on. */
    ghost method Advance(now: nat)
      requires Inv() && clock <= now
      modifies `clock
      ensures Inv() && clock == now
    {
      clock := now;
    }

    /** A timer in the future goes to the bucket of its time, any other one to the
        ready list. It must not be linked already. */
    method Insert(t: Timer, now: nat)
      requires Inv() && clock <= now && (t == probe ==> Pending() == 0)
      modifies `buckets, `ready, `empty, `again, `clock, `inserted, `waiting
      ensures Inv() && clock == now && !empty && again
      ensures inserted == old(inserted) + (if t == probe then 1 else 0)
      ensures if t.due > now then
                ready == old(ready) && buckets == old(buckets)[BucketIndexAt(t.due) := old(buckets)[BucketIndexAt(t.due)] + [t]]
              else
                buckets == old(buckets) && ready == old(ready) + [t]
      ensures Evolved(old(buckets), buckets, now) && (old(Prompt(now)) ==> Prompt(now))
    {
      Advance(now);
      empty, again := false, true;
      if t.due > now {
        InsertLater(t);
      } else {
        InsertReady(t);
      }
    }

    method InsertLater(t: Timer)
      requires Inv() && t.due > clock && (t == probe ==> Pending() == 0)
      modifies `buckets, `empty, `inserted
      ensures Inv() && !empty && Evolved(old(buckets), buckets, clock)
      ensures inserted == old(inserted) + (if t == probe then 1 else 0)
      ensures buckets == old(buckets)[BucketIndexAt(t.due) := old(buckets)[BucketIndexAt(t.due)] + [t]]
    {
      AddTimer(buckets, t, clock, probe);
      inserted := inserted + (if t == probe then 1 else 0);
      var i := BucketIndexAt(t.due);
      buckets := buckets[i := buckets[i] + [t]];
      empty := false;
    }

    method InsertReady(t: Timer)
      requires Inv() && t.due <= clock && (t == probe ==> Pending() == 0)
      modifies `ready, `inserted, `waiting
      ensures Inv() && ready == old(ready) + [t] && (old(Prompt(clock)) ==> Prompt(clock))
      ensures inserted == old(inserted) + (if t == probe then 1 else 0)
    {
      CountSnoc(ready, t, probe);
      inserted := inserted + (if t == probe then 1 else 0);
      waiting := if ready == [] then clock else waiting;
      ready := ready + [t];
    }

    /** Unlinks a timer from whatever list it is in. */
    method Unlink(id: nat)
      requires Inv()
      modifies `buckets, `ready, `tmp, `cancelled
      ensures Inv()
      ensures Pending() == if probe.id == id then 0 else old(Pending())
      ensures old(cancelled) <= cancelled <= old(cancelled) + (if probe.id == id then 1 else 0)
      ensures Evolved(old(buckets), buckets, clock) && Shrunk(old(buckets), buckets)
      ensures Sublist(tmp, old(tmp)) && Sublist(ready, old(ready))
    {
      DropTimer(buckets, id, clock);
      DropCounts(buckets, ready, tmp, id, probe);
      cancelled := cancelled + (if probe.id == id then Pending() else 0);
      buckets := WithoutAll(buckets, id);
      ready := Without(ready, id);
      tmp := Without(tmp, id);
    }

    /** One call of Schedule, which cancels the timer first, or of Cancel. */
    method PerformOne(op: Op, now: nat)
      requires Inv() && clock == now
      modifies `buckets, `ready, `tmp, `empty, `again, `clock, `inserted, `cancelled, `waiting
      ensures Inv() && clock == now
      ensures inserted == old(inserted) + (if op == Schedule(probe.id, probe.due) then 1 else 0)
      ensures Pending() == LeftBy(op, probe, old(Pending()))
      ensures old(cancelled) <= cancelled <= old(cancelled) + (if op.id == probe.id then 1 else 0)
      ensures Touched(old(AllLists()), AllLists(), 1, now)
    {
      Unlink(op.id);
      if op.Schedule? {
        ghost var before := buckets;
        Insert(Timer(op.id, op.due), now);
        EvolvedTrans(old(buckets), before, buckets, now);
      }
    }

    /** Some calls of Schedule and Cancel at one time. */
    method Perform(ops: seq<Op>, now: nat)
      requires Inv() && clock <= now
      modifies `buckets, `ready, `tmp, `empty, `again, `clock, `inserted, `cancelled, `waiting
      ensures Inv() && clock == now
      ensures inserted == old(inserted) + ScheduledIn(ops, probe) && Pending() == Left(ops, probe, old(Pending()))
      ensures old(cancelled) <= cancelled <= old(cancelled) + NamedIn(ops, probe.id)
      ensures Touched(old(AllLists()), AllLists(), |ops|, now)
    {
      Advance(now);
      assert ops[..0] == [];
      for k := 0 to |ops|
        invariant Inv() && clock == now
        invariant inserted == old(inserted) + ScheduledIn(ops[..k], probe) && Pending() == Left(ops[..k], probe, old(Pending()))
        invariant old(cancelled) <= cancelled <= old(cancelled) + NamedIn(ops[..k], probe.id)
        invariant Touched(old(AllLists()), AllLists(), k, now)
      {
        ghost var before := AllLists();
        OpsSnoc(ops, k, probe, old(Pending()));
        PerformOne(ops[k], now);
        TouchedTrans(old(AllLists()), before, AllLists(), k, now);
      }
      assert ops[..|ops|] == ops;
    }

    /** A timer's callback runs; called is the view with its operations put back. */
    method Callback(ops: seq<Op>, now: nat, ghost called: View)
      requires Inv() && clock == now && called == Look().PutBack(ops, probe)
      modifies `buckets, `ready, `tmp, `empty, `again, `clock, `inserted, `cancelled, `waiting
      ensures Inv() && clock == now && Follows(called, Look(), now, true)
      ensures Sublist(tmp, old(tmp)) && |ready| <= |old(ready)| + |ops|
      ensures !old(empty) ==> !empty
    {
      Perform(ops, now);
    }

    /** Takes the first timer off the ready list in order to run it, and what its
        callback is going to do. It was due when it was put there. */
    method PopReady(now: nat) returns (ops: seq<Op>, ghost f: Firing)
      requires Inv() && clock == now && ready != []
      modifies `ready, `fired, `script
      ensures Inv() && ready == old(ready)[1..] && fired == old(fired) + [f]
      ensures ops == NextOps(old(script)) && script == Remaining(old(script), 1)
      ensures f.timer == old(ready)[0] && f.at == now && f.fromReady && f.since == waiting && f.timer.due <= now
    {
      f := Firing(ready[0], now, true, waiting);
      assert (fired + [f])[..|fired|] == fired;
      ready := ready[1..];
      ops, script := NextOps(script), Remaining(script, 1);
      fired := fired + [f];
    }

    /** The first timer of the ready list runs. */
    method RunFirstReady(now: nat)
      requires Inv() && clock == now && ready != [] && tmp == []
      modifies `buckets, `ready, `tmp, `empty, `again, `clock, `inserted, `cancelled, `waiting, `script, `fired
      ensures Inv() && clock == now && tmp == [] && Follows(old(Look()), Look(), now, old(Prompt(now)))
      ensures |ready| + OpCount(script) < |old(ready)| + OpCount(old(script))
    {
      ghost var start, inTime := Look(), Prompt(now);
      NextOpsCount(script, probe);
      var ops;
      ghost var f;
      ops, f := PopReady(now);
      ghost var called := Look().PutBack(ops, probe);
      FollowsFiring(start, called, f, now, inTime);
      Callback(ops, now, called);
      Lenient(called, Look(), now, inTime);
      FollowsTrans(start, called, Look(), now, inTime);
    }

    /** Runs everything in the ready list, also what is added meanwhile. */
    method RunReady(now: nat)
      requires Inv() && clock <= now && tmp == []
      modifies `buckets, `ready, `tmp, `empty, `again, `clock, `inserted, `cancelled, `waiting, `script, `fired
      ensures Inv() && clock == now && tmp == [] && ready == []
      ensures Follows(old(Look()), Look(), now, old(Prompt(now)))
    {
      clock := now;
      ghost var start, inTime := Look(), Prompt(now);
      while ready != []
        invariant Inv() && clock == now && tmp == [] && (inTime ==> Prompt(now))
        invariant Follows(start, Look(), now, inTime)
        decreases |ready| + OpCount(script)
      {
        ghost var before := Look();
        RunFirstReady(now);
        Lenient(before, Look(), now, inTime);
        FollowsTrans(start, before, Look(), now, inTime);
      }
    }

    /** Takes the first timer off the temporary list in order to run it, and what its
        callback is going to do. */
    method PopDue(now: nat) returns (ops: seq<Op>, ghost f: Firing)
      requires Inv() && clock == now && tmp != []
      modifies `tmp, `fired, `script
      ensures Inv() && tmp == old(tmp)[1..] && fired == old(fired) + [f] && f == Firing(old(tmp)[0], now, false, now)
      ensures ops == NextOps(old(script)) && script == Remaining(old(script), 1)
    {
      f := Firing(tmp[0], now, false, now);
      assert (fired + [f])[..|fired|] == fired;
      tmp := tmp[1..];
      ops, script := NextOps(script), Remaining(script, 1);
      fired := fired + [f];
    }

    /** The first timer of the temporary list runs. */
    method RunDue(now: nat, ghost inTime: bool)
      requires Inv() && clock == now && tmp != [] && !empty && tmp[0].due <= now
      requires inTime ==> now <= tmp[0].due + RESOLUTION
      modifies `buckets, `ready, `tmp, `empty, `again, `clock, `inserted, `cancelled, `waiting, `script, `fired
      ensures Inv() && clock == now && !empty && Sublist(tmp, old(tmp)[1..])
      ensures Follows(old(Look()), Look(), now, inTime)
    {
      ghost var start := Look();
      NextOpsCount(script, probe);
      var ops;
      ghost var f;
      ops, f := PopDue(now);
      ghost var called := Look().PutBack(ops, probe);
      FollowsFiring(start, called, f, now, inTime);
      Callback(ops, now, called);
      Lenient(called, Look(), now, inTime);
      FollowsTrans(start, called, Look(), now, inTime);
    }

    /** The first timer of the temporary list goes back to its bucket. */
    method KeepLater(i: nat, now: nat)
      requires Inv() && clock == now && tmp != [] && !empty && tmp[0].due > now && BucketIndexAt(tmp[0].due) == i
      modifies `buckets, `tmp
      ensures Inv() && tmp == old(tmp)[1..] && Follows(old(Look()), Look(), now, true)
    {
      AddTimer(buckets, tmp[0], now, probe);
      buckets := buckets[i := buckets[i] + [tmp[0]]];
      tmp := tmp[1..];
    }

    /** The first timer of the temporary list runs or goes back to its bucket. */
    method RunFirst(i: nat, now: nat, ghost inTime: bool)
      requires Inv() && clock == now && tmp != [] && !empty && AllHome(tmp[..1], i)
      requires inTime ==> now <= tmp[0].due + RESOLUTION
      modifies `buckets, `ready, `tmp, `empty, `again, `clock, `inserted, `cancelled, `waiting, `script, `fired
      ensures Inv() && clock == now && !empty && Sublist(tmp, old(tmp)[1..])
      ensures Follows(old(Look()), Look(), now, inTime)
    {
      if tmp[0].due <= now {
        RunDue(now, inTime);
      } else {
        HomeOf(tmp[..1], i, tmp[0]);
        KeepLater(i, now);
      }
    }

    /** Runs the due timers of one bucket and keeps the others. */
    method RunBucket(i: nat, now: nat, ghost inTime: bool)
      requires Inv() && clock == now && tmp == [] && i < N_BUCKETS
      requires inTime ==> NoneEndsBefore(buckets, now)
      modifies `buckets, `ready, `tmp, `empty, `again, `clock, `inserted, `cancelled, `waiting, `script, `fired
      ensures Inv() && clock == now && tmp == [] && AllAfter(buckets[i], now)
      ensures Follows(old(Look()), Look(), now, inTime)
    {
      ghost var first, was := buckets, buckets[i];
      ghost var whole := Look();
      CountUpdate(buckets, i, [], probe);
      tmp := buckets[i];
      buckets := buckets[i := []];
      ghost var start := Look();
      FollowsEmptied(whole, i, now, inTime);
      RunTmp(i, now, inTime, was);
      Emptied(first, i, buckets, now);
      FollowsTrans(whole, start, Look(), now, inTime);
    }

    /** Empties the temporary list. */
    method RunTmp(i: nat, now: nat, ghost inTime: bool, ghost was: seq<Timer>)
      requires Inv() && clock == now && tmp == was && AllHome(was, i) && (was != [] ==> !empty)
      requires inTime ==> forall t :: t in was ==> t.due >= 0 && now <= BucketEnd(t.due)
      modifies `buckets, `ready, `tmp, `empty, `again, `clock, `inserted, `cancelled, `waiting, `script, `fired
      ensures Inv() && clock == now && tmp == [] && Follows(old(Look()), Look(), now, inTime)
    {
      ghost var start := Look();
      while tmp != []
        invariant Inv() && clock == now && Sublist(tmp, was) && (was != [] ==> !empty)
        invariant Follows(start, Look(), now, inTime)
        decreases |tmp|
      {
        ghost var t := tmp[0];
        assert t in was;
        HomeOf(was, i, t);
        HomeOne(t, i);
        assert tmp[..1] == [t];
        StartTime(t.due);
        ghost var before := Look();
        RunFirst(i, now, inTime);
        FollowsTrans(start, before, Look(), now, inTime);
      }
    }

    /** The end of the first non-empty bucket, searching from the one that tick k
        is in; None if there is none. */
    method GetNextDue(index: nat, bucketStart: nat, ghost k: nat) returns (end: Option<nat>)
      requires |buckets| == N_BUCKETS && index == Around(k, 0) && bucketStart == RESOLUTION * k
      ensures end.None? ==> forall j :: 0 <= j < N_BUCKETS ==> buckets[Around(k, j)] == []
      ensures end.Some? ==> IsFirstEnd(buckets, k, end.value)
    {
      var t := bucketStart;
      var i := index;
      ghost var j := 0;
      while true
        invariant 0 <= j < N_BUCKETS && i == Around(k, j) && t == RESOLUTION * (k + j)
        invariant forall x :: 0 <= x < j ==> buckets[Around(k, x)] == []
        decreases N_BUCKETS - j
      {
        t := t + RESOLUTION;
        if buckets[i] != [] {
          return Some(t);
        }
        AroundNext(k, j);
        AroundOnce(k, 0, j + 1);
        i := NextBucketIndex(i);
        if i == index {
          return None;
        }
        j := j + 1;
      }
    }

    /** Negative exactly if all buckets are empty. Otherwise the time to the end of the
        first bucket that is not, at most SPAN, and no timer's bucket ends before. */
    method GetSleep(now: nat) returns (sleep: int)
      requires Inv() && NoneBefore(buckets, GetBucketStartTime(now))
      modifies `empty
      ensures Inv()
      ensures sleep < 0 <==> AllEmpty(buckets)
      ensures sleep >= 0 ==> 0 < sleep <= SPAN && NoneEndsBefore(buckets, now + sleep)
      ensures sleep >= 0 ==> |buckets| == N_BUCKETS && IsFirstEnd(buckets, Tick(now), now + sleep)
    {
      if empty {
        return -1;
      }
      ghost var k := Tick(now);
      StartTime(now);
      var end := GetNextDue(BucketIndexAt(now), GetBucketStartTime(now), k);
      if end.None? {
        forall i | 0 <= i < N_BUCKETS ensures buckets[i] == [] {
          var j := AroundAll(k, i);
        }
        empty := true;
        return -1;
      }
      FirstEnd(buckets, now, end.value);
      return end.value - now;
    }

    /** Runs the bucket that is j steps from tick k on. */
    method RunNext(i: nat, now: nat, ghost k: nat, ghost j: nat, ghost inTime: bool, ghost first: View)
      requires Inv() && clock == now && tmp == [] && i == Around(k, j) && RangeDone(buckets, k, j, now)
      requires Follows(first, Look(), now, inTime) && (inTime ==> NoneEndsBefore(first.buckets, now))
      modifies `buckets, `ready, `tmp, `empty, `again, `clock, `inserted, `cancelled, `waiting, `script, `fired
      ensures Inv() && clock == now && tmp == [] && RangeDone(buckets, k, j + 1, now)
      ensures Follows(first, Look(), now, inTime)
    {
      ghost var before := Look();
      EndsLater(first.buckets, buckets, now);
      RunBucket(i, now, inTime);
      FollowsTrans(first, before, Look(), now, inTime);
      RangeStillDone(before.buckets, buckets, now, k, j);
    }

    /** Runs the buckets that are m steps from tick k on, where i is the first
        and end the one after the last. */
    method RunBuckets(start: nat, end: nat, now: nat, ghost k: nat, ghost m: nat, ghost inTime: bool)
      requires Inv() && clock == now && tmp == [] && (inTime ==> NoneEndsBefore(buckets, now))
      requires 0 < m <= N_BUCKETS && start == Around(k, 0) && end == Around(k, m)
      modifies `buckets, `ready, `tmp, `empty, `again, `clock, `inserted, `cancelled, `waiting, `script, `fired
      ensures Inv() && clock == now && tmp == [] && Follows(old(Look()), Look(), now, inTime)
      ensures RangeDone(buckets, k, m, now)
    {
      var i := start;
      ghost var j, first := 0, Look();
      while true
        invariant Inv() == true && Follows(first, Look(), now, inTime) == true
        invariant clock == now && tmp == [] && 0 <= j < m && i == Around(k, j)
        invariant RangeDone(buckets, k, j, now) == true
        decreases m - j
      {
        RunNext(i, now, k, j, inTime, first);
        AroundStep(k, j, m);
        i := NextBucketIndex(i);
        j := j + 1;
        if i == end {
          break;
        }
      }
    }

    /** Which buckets to run: all of them after a long time, none while the
        current bucket has not passed, else those from the last run up to now. */
    method ChooseBuckets(now: nat) returns (start: nat, end: nat, same: bool, ghost m: nat)
      requires lastTime == RESOLUTION * lastTick && lastTime <= now
      ensures m == if now >= lastTime + SPAN - RESOLUTION then N_BUCKETS else Tick(now) - lastTick
      ensures m <= N_BUCKETS && (same <==> m == 0) && start == Around(lastTick, 0) && end == Around(lastTick, m)
      ensures same <==> GetBucketStartTime(now) == lastTime
      ensures GetBucketStartTime(now) == RESOLUTION * Tick(now) && GetBucketStartTime(now) <= now
    {
      LastTick(lastTime, lastTick, now);
      start := BucketIndexAt(lastTime);
      if now < lastTime || now >= lastTime + SPAN - RESOLUTION {
        AroundOnce(lastTick, 0, N_BUCKETS);
        end, same, m := start, false, N_BUCKETS;
      } else {
        m := Tick(now) - lastTick;
        if m > 0 {
          AroundOnce(lastTick, 0, m);
        }
        end := BucketIndexAt(now);
        same := start == end;
      }
    }

    /** Runs the buckets that have passed since the last run. */
    method RunPassed(now: nat, ghost inTime: bool)
      requires Inv() && clock == now && tmp == [] && NoneBefore(buckets, lastTime)
      requires inTime ==> NoneEndsBefore(buckets, now)
      modifies this
      ensures Inv() && clock == now && tmp == [] && Follows(old(Look()), Look(), now, inTime)
      ensures NoneBefore(buckets, lastTime) && lastTime == GetBucketStartTime(now)
    {
      ghost var k := lastTick;
      var start, end, same;
      ghost var m;
      start, end, same, m := ChooseBuckets(now);
      if same {
        return;
      }
      lastTime := GetBucketStartTime(now);
      lastTick := Tick(now);
      RunBuckets(start, end, now, k, m, inTime);
      NoneLeftBehind(old(buckets), buckets, now, k, m);
    }

    /** Invokes all expired timers and tells how long to sleep. The clock must not
        run backwards. No timer runs early, a pending timer that no operation
        names is still pending or has run once, and the ready list is empty unless
        a callback has inserted a timer. */
    method Run(now: nat) returns (sleep: int)
      requires Valid() && clock <= now
      modifies this
      ensures Valid() && clock == now && (again || ready == [])
      ensures Follows(old(Look()), Look(), now, old(Prompt(now) && NoneEndsBefore(buckets, now)))
      ensures NoneBefore(buckets, GetBucketStartTime(now))
      ensures sleep < 0 <==> AllEmpty(buckets)
      ensures sleep >= 0 ==> 0 < sleep <= SPAN && NoneEndsBefore(buckets, now + sleep)
      ensures sleep >= 0 ==> |buckets| == N_BUCKETS && IsFirstEnd(buckets, Tick(now), now + sleep)
    {
      RunTimers(now);
      sleep := GetSleep(now);
    }

    method RunTimers(now: nat)
      requires Valid() && clock <= now
      modifies this
      ensures Valid() && clock == now && (again || ready == []) && lastTime == GetBucketStartTime(now)
      ensures Follows(old(Look()), Look(), now, old(Prompt(now) && NoneEndsBefore(buckets, now)))
    {
      ghost var first, inTime := Look(), Prompt(now) && NoneEndsBefore(buckets, now);
      RunReady(now);
      ghost var second := Look();
      Lenient(first, second, now, inTime);
      NoneBeforeStill(first.buckets, buckets, lastTime, now);
      EndsLater(first.buckets, buckets, now);
      RunPassed(now, inTime);
      FollowsTrans(first, second, Look(), now, inTime);
    }
  }

  /** Nothing is asked of what was late already. */
  lemma Lenient(a: View, b: View, now: nat, inTime: bool)
    requires Follows(a, b, now, inTime) || Follows(a, b, now, true)
    ensures Follows(a, b, now, inTime)
  {
  }

  lemma HomeOne(t: Timer, i: nat)
    requires t.due >= 0 && BucketIndexAt(t.due) == i
    ensures AllHome([t], i)
  {
    assert [t][1..] == [];
  }

  lemma Emptied(before: seq<seq<Timer>>, i: nat, after: seq<seq<Timer>>, now: nat)
    requires i < |before| && Evolved(before[i := []], after, now)
    ensures AllAfter(after[i], now) && Evolved(before, after, now)
  {
  }

  /** No timer in the m buckets from tick k on is due. */
  ghost predicate RangeDone(buckets: seq<seq<Timer>>, k: nat, m: nat, now: nat)
    requires |buckets| == N_BUCKETS
  {
    m == 0 || (AllAfter(buckets[Around(k, m - 1)], now) && RangeDone(buckets, k, m - 1, now))
  }

  lemma {:induction false} RangeDoneAt(buckets: seq<seq<Timer>>, k: nat, m: nat, now: nat, j: nat)
    requires |buckets| == N_BUCKETS && RangeDone(buckets, k, m, now) && j < m
    ensures AllAfter(buckets[Around(k, j)], now)
  {
    if j < m - 1 {
      RangeDoneAt(buckets, k, m - 1, now, j);
    }
  }

  ghost predicate AllAfter(xs: seq<Timer>, now: nat) {
    forall t :: t in xs ==> t.due > now
  }

  lemma {:induction false} RangeStillDone(before: seq<seq<Timer>>, after: seq<seq<Timer>>, now: nat, k: nat, m: nat)
    requires |before| == N_BUCKETS && Evolved(before, after, now) && RangeDone(before, k, m, now)
    ensures RangeDone(after, k, m, now)
  {
    if m > 0 {
      RangeStillDone(before, after, now, k, m - 1);
    }
  }

  lemma EndsLater(before: seq<seq<Timer>>, after: seq<seq<Timer>>, now: nat)
    requires Evolved(before, after, now)
    ensures NoneEndsBefore(before, now) ==> NoneEndsBefore(after, now)
  {
    if NoneEndsBefore(before, now) {
      forall i, t | 0 <= i < |after| && t in after[i]
        ensures t.due >= 0 && now <= BucketEnd(t.due)
      {
        if t !in before[i] {
          StartTime(t.due);
        }
      }
    }
  }

  lemma NoneBeforeStill(before: seq<seq<Timer>>, after: seq<seq<Timer>>, time: nat, now: nat)
    requires NoneBefore(before, time) && Evolved(before, after, now) && time <= now
    ensures NoneBefore(after, time)
  {
  }

  /** Where the last run ended and where this one does. */
  lemma LastTick(lastTime: nat, k: nat, now: nat)
    requires lastTime == RESOLUTION * k && lastTime <= now
    ensures Tick(lastTime) == k <= Tick(now)
    ensures BucketIndexAt(lastTime) == Around(k, 0)
    ensures BucketIndexAt(now) == Around(k, Tick(now) - k)
    ensures now < lastTime + SPAN - RESOLUTION ==> Tick(now) - k < N_BUCKETS - 1
    ensures GetBucketStartTime(now) == RESOLUTION * Tick(now) && lastTime <= GetBucketStartTime(now) <= now
    ensures Tick(now) == k ==> GetBucketStartTime(now) == lastTime
  {
  }

  /** After running the buckets, no timer that was due before the current bucket
      is left: not in the buckets that were run, and not in the others, because
      a timer in one of those is at least a turn of the wheel away. */
  lemma NoneLeftBehind(before: seq<seq<Timer>>, after: seq<seq<Timer>>, now: nat, k: nat, m: nat)
    requires InPlace(before) && NoneBefore(before, RESOLUTION * k) && Evolved(before, after, now)
    requires |after| == N_BUCKETS && RangeDone(after, k, m, now)
    requires m == N_BUCKETS || (m < N_BUCKETS && m == Tick(now) - k)
    ensures NoneBefore(after, GetBucketStartTime(now))
  {
    StartTime(now);
    forall i, t | 0 <= i < |after| && t in after[i]
      ensures t.due >= GetBucketStartTime(now)
    {
      var j := AroundAll(k, i);
      if j < m {
        RangeDoneAt(after, k, m, now, j);
      } else if t.due <= now {
        HomeOf(before[i], i, t);
        NotPassed(t.due, now, i, k, m, j);
      }
    }
  }

  lemma NotPassed(due: nat, now: nat, i: nat, k: nat, m: nat, j: nat)
    requires due >= RESOLUTION * k && BucketIndexAt(due) == i == Around(k, j)
    requires m <= j < N_BUCKETS && m == Tick(now) - k
    ensures due >= GetBucketStartTime(now)
  {
    BeforeStart(due, now);
    var x := Tick(due) - k;
    if x < m {
      AroundOnce(k, x, j);
      assert false;
    }
  }

  /** No timer's bucket ends before this time. */
  ghost predicate NoneEndsBefore(buckets: seq<seq<Timer>>, time: nat) {
    forall i, t :: 0 <= i < |buckets| && t in buckets[i] ==> t.due >= 0 && time <= BucketEnd(t.due)
  }

  /** The first bucket that is not empty, from the current one on, ends then. */
  ghost predicate IsFirstEnd(buckets: seq<seq<Timer>>, k: nat, end: nat)
    requires |buckets| == N_BUCKETS
  {
    exists j :: 0 <= j < N_BUCKETS
      && end == RESOLUTION * (k + j + 1)
      && buckets[Around(k, j)] != []
      && forall x :: 0 <= x < j ==> buckets[Around(k, x)] == []
  }

  lemma FirstEnd(buckets: seq<seq<Timer>>, now: nat, end: nat)
    requires InPlace(buckets) && NoneBefore(buckets, GetBucketStartTime(now)) && IsFirstEnd(buckets, Tick(now), end)
    ensures now < end <= now + SPAN && NoneEndsBefore(buckets, end) && !AllEmpty(buckets)
  {
    var k := Tick(now);
    var j :| 0 <= j < N_BUCKETS
               && end == RESOLUTION * (k + j + 1)
               && buckets[Around(k, j)] != []
               && forall x :: 0 <= x < j ==> buckets[Around(k, x)] == [];
    StartTime(now);
    forall i, t | 0 <= i < |buckets| && t in buckets[i]
      ensures t.due >= 0 && end <= BucketEnd(t.due)
    {
      HomeOf(buckets[i], i, t);
      TimerTick(t.due, now, i, k, j);
      if Tick(t.due) < k + j {
        assert false;
      }
    }
  }

  lemma TimerTick(due: nat, now: nat, i: nat, k: nat, j: nat)
    requires k == Tick(now) && due >= GetBucketStartTime(now) && BucketIndexAt(due) == i
    ensures Tick(due) >= k && Around(k, Tick(due) - k) == i
  {
    BeforeStart(due, now);
  }

  // ---- The event loop ----

  /** What happens between two waits: the loop has waited, sockets are served, and
      after each look at the timers deferred and idle events run. */
  datatype Round = Round(gap: nat, ops: seq<Op>, deferred: seq<seq<Op>>)

  /** The promise that the last run's return value made. */
  ghost predicate Promised(buckets: seq<seq<Timer>>, now: nat, sleep: int) {
    if sleep < 0 then AllEmpty(buckets) else NoneEndsBefore(buckets, now + sleep)
  }

  lemma NoMember(list: seq<Timer>)
    ensures list == [] || exists t :: t in list
  {
    if list != [] {
      assert list[0] in list;
    }
  }

  lemma StillPromised(before: seq<seq<Timer>>, after: seq<seq<Timer>>, now: nat, sleep: int)
    requires Promised(before, now, sleep) && Shrunk(before, after)
    ensures Promised(after, now, sleep)
  {
    if sleep < 0 {
      forall i | 0 <= i < |after| ensures after[i] == [] {
        assert before[i] == [];
        NoMember(after[i]);
      }
    }
  }

  lemma PromisedNow(buckets: seq<seq<Timer>>, now: nat, sleep: int, time: nat)
    requires Promised(buckets, now, sleep) && time <= now + (if sleep < 0 then time else sleep)
    ensures NoneEndsBefore(buckets, time)
  {
  }

  /** A timer that is due before all that is in the buckets is not there. */
  lemma {:induction false} NotThere(buckets: seq<seq<Timer>>, time: nat, t: Timer)
    requires NoneBefore(buckets, time) && t.due < time
    ensures CountAll(buckets, t) == 0
  {
    if buckets != [] {
      CountMember(buckets[0], t);
      NotThere(buckets[1..], time, t);
    }
  }

  /** No timer ran before it was due. */
  ghost predicate Due(fired: seq<Firing>, from: nat) {
    forall k :: from <= k < |fired| ==> fired[k].timer.due <= fired[k].at
  }

  /** The operations of a round that name a timer. */
  function NamedRound(round: Round, id: nat): nat {
    NamedIn(round.ops, id) + Named(round.deferred, id)
  }

  function NamedRounds(rounds: seq<Round>, id: nat): nat {
    if rounds == [] then 0 else NamedRounds(rounds[..|rounds| - 1], id) + NamedRound(rounds[|rounds| - 1], id)
  }

  /** Those that schedule it for this time. */
  function ScheduledRound(round: Round, t: Timer): nat {
    ScheduledIn(round.ops, t) + Scheduled(round.deferred, t)
  }

  function ScheduledRounds(rounds: seq<Round>, t: Timer): nat {
    if rounds == [] then 0 else ScheduledRounds(rounds[..|rounds| - 1], t) + ScheduledRound(rounds[|rounds| - 1], t)
  }

  /** When the loop wakes up: it does not sleep longer than it was told. */
  function WakesAt(last: nat, sleep: int, gap: nat): nat {
    last + (if 0 <= sleep < gap then sleep else gap)
  }

  /** The timer was inserted exactly as often as operations of the script or others
      have scheduled it, and cancelled at most as often as operations named it. */
  ghost predicate Booked(a: Account, b: Account, scheduled: nat, named: nat) {
    && a.inserted <= b.inserted && b.inserted + b.scheduled == a.inserted + a.scheduled + scheduled
    && b.inserted + b.named <= a.inserted + a.named + named
    && a.cancelled <= b.cancelled && b.cancelled + b.named <= a.cancelled + a.named + named
  }

  /** Timers ran neither early nor late. */
  ghost predicate Punctual(a: seq<Firing>, b: seq<Firing>) {
    a <= b && Due(b, |a|) && NotLate(b, |a|)
  }

  /** And all at this time. */
  ghost predicate PunctualAt(a: seq<Firing>, b: seq<Firing>, now: nat) {
    Punctual(a, b) && forall k :: |a| <= k < |b| ==> b[k].at == now
  }

  lemma PunctualAtTrans(a: seq<Firing>, b: seq<Firing>, c: seq<Firing>, now: nat)
    requires PunctualAt(a, b, now) && PunctualAt(b, c, now)
    ensures PunctualAt(a, c, now)
  {
  }

  lemma PunctualTrans(a: seq<Firing>, b: seq<Firing>, c: seq<Firing>)
    requires Punctual(a, b) && Punctual(b, c)
    ensures Punctual(a, c)
  {
  }

  lemma PunctualFollows(a: View, b: View, now: nat)
    requires Follows(a, b, now, true)
    ensures PunctualAt(a.fired, b.fired, now) && Booked(a.ledger, b.ledger, 0, 0)
  {
  }

  /** The timers are looked at, and a deferred event runs. */
  method LookOnce(wheel: Wheel, now: nat, ops: seq<Op>) returns (sleep: int)
    requires wheel.Valid() && wheel.clock == now && wheel.Prompt(now) && NoneEndsBefore(wheel.buckets, now)
    modifies wheel
    ensures wheel.Valid() && wheel.clock == now && wheel.Prompt(now) && NoneEndsBefore(wheel.buckets, now)
    ensures NoneBefore(wheel.buckets, GetBucketStartTime(now))
    ensures !wheel.again ==> wheel.ready == [] && Promised(wheel.buckets, now, sleep)
    ensures OpCount(wheel.script) <= OpCount(old(wheel.script))
    ensures wheel.again ==> OpCount(wheel.script) < OpCount(old(wheel.script)) || ops != []
    ensures PunctualAt(old(wheel.fired), wheel.fired, now)
    ensures Booked(old(wheel.Ledger()), wheel.Ledger(), ScheduledIn(ops, wheel.probe), NamedIn(ops, wheel.probe.id))
  {
    wheel.again := false;
    ghost var first := wheel.Look();
    sleep := wheel.Run(now);
    PunctualFollows(first, wheel.Look(), now);
    PromisedNow(wheel.buckets, now, sleep, now);
    Defer(wheel, now, ops, sleep);
  }

  method Defer(wheel: Wheel, now: nat, ops: seq<Op>, ghost sleep: int)
    requires wheel.Valid() && wheel.clock == now && wheel.Prompt(now) && NoneEndsBefore(wheel.buckets, now)
    requires NoneBefore(wheel.buckets, GetBucketStartTime(now)) && Promised(wheel.buckets, now, sleep)
    requires wheel.again || wheel.ready == []
    modifies wheel`buckets, wheel`ready, wheel`tmp, wheel`empty, wheel`again, wheel`clock, wheel`inserted, wheel`cancelled, wheel`waiting
    ensures wheel.Valid() && wheel.clock == now && wheel.Prompt(now) && NoneEndsBefore(wheel.buckets, now)
    ensures NoneBefore(wheel.buckets, GetBucketStartTime(now))
    ensures !wheel.again ==> wheel.ready == [] && Promised(wheel.buckets, now, sleep)
    ensures wheel.again ==> old(wheel.again) || ops != []
    ensures Booked(old(wheel.Ledger()), wheel.Ledger(), ScheduledIn(ops, wheel.probe), NamedIn(ops, wheel.probe.id))
  {
    ghost var before := wheel.buckets;
    StartTime(now);
    wheel.Perform(ops, now);
    EndsLater(before, wheel.buckets, now);
    NoneBeforeStill(before, wheel.buckets, wheel.lastTime, now);
    NoneBeforeStill(before, wheel.buckets, GetBucketStartTime(now), now);
    if !wheel.again {
      StillPromised(before, wheel.buckets, now, sleep);
    }
  }

  /** The timers are looked at until nothing was inserted meanwhile and no event is
      left. */
  method Settle(wheel: Wheel, now: nat, deferred: seq<seq<Op>>) returns (sleep: int)
    requires wheel.Valid() && wheel.clock == now && wheel.Prompt(now) && NoneEndsBefore(wheel.buckets, now)
    modifies wheel
    ensures wheel.Valid() && wheel.clock == now && wheel.ready == [] && Promised(wheel.buckets, now, sleep)
    ensures NoneBefore(wheel.buckets, GetBucketStartTime(now))
    ensures PunctualAt(old(wheel.fired), wheel.fired, now)
    ensures Booked(old(wheel.Ledger()), wheel.Ledger(), Scheduled(deferred, wheel.probe), Named(deferred, wheel.probe.id))
  {
    var left := deferred;
    ghost var probe, first, fired := wheel.probe, wheel.Ledger(), wheel.fired;
    while true
      invariant wheel.Valid() && wheel.clock == now && wheel.Prompt(now) && NoneEndsBefore(wheel.buckets, now)
      invariant Named(left, probe.id) <= Named(deferred, probe.id) && Scheduled(left, probe) <= Scheduled(deferred, probe)
      invariant Booked(first, wheel.Ledger(), Scheduled(deferred, probe) - Scheduled(left, probe),
                       Named(deferred, probe.id) - Named(left, probe.id))
      invariant PunctualAt(fired, wheel.fired, now)
      decreases |left|, OpCount(wheel.script)
    {
      var ops := NextOps(left);
      ghost var before := wheel.fired;
      NextOpsCount(left, probe);
      sleep := LookOnce(wheel, now, ops);
      PunctualAtTrans(fired, before, wheel.fired, now);
      left := Remaining(left, 1);
      if !wheel.again && left == [] {
        break;
      }
    }
  }

  /** What can be seen of a wheel between two rounds: the time, how long the loop may
      sleep, and what has become of the probe. */
  datatype Snap = Snap(now: nat, sleep: int, ledger: Account, pending: nat, fired: seq<Firing>)

  /** What a round does. Timers run when the loop wakes up, neither early nor late.
      The operations of the round, and of the script, decide how often the probe is
      inserted. If only those of the round itself name it, they decide also whether it
      is pending; then it stays so or runs. Once its time has passed, it is not
      pending. */
  ghost predicate Played(a: Snap, round: Round, b: Snap, probe: Timer) {
    && b.now == WakesAt(a.now, a.sleep, round.gap)
    && PunctualAt(a.fired, b.fired, b.now)
    && Booked(a.ledger, b.ledger, ScheduledRound(round, probe), NamedRound(round, probe.id))
    && (a.ledger.named + Named(round.deferred, probe.id) == 0 ==>
          b.pending + CountFired(b.fired, probe) == Left(round.ops, probe, a.pending) + CountFired(a.fired, probe))
    && (probe.due < GetBucketStartTime(b.now) ==> b.pending == 0)
  }

  /** One round of the event loop, which does not oversleep. */
  method PlayRound(wheel: Wheel, last: nat, sleep: int, round: Round) returns (now: nat, next: int)
    requires wheel.Valid() && wheel.clock == last && wheel.ready == [] && Promised(wheel.buckets, last, sleep)
    modifies wheel
    ensures wheel.Valid() && now == wheel.clock && wheel.ready == [] && Promised(wheel.buckets, now, next)
    ensures Played(old(wheel.Snapshot(sleep)), round, wheel.Snapshot(next), wheel.probe)
  {
    now := WakesAt(last, sleep, round.gap);
    PromisedNow(wheel.buckets, last, sleep, now);
    ghost var before := wheel.buckets;
    wheel.Perform(round.ops, now);
    EndsLater(before, wheel.buckets, now);
    NoneBeforeStill(before, wheel.buckets, wheel.lastTime, now);
    next := Settle(wheel, now, round.deferred);
    if wheel.probe.due < GetBucketStartTime(now) {
      NotThere(wheel.buckets, GetBucketStartTime(now), wheel.probe);
    }
  }

  /** A run of rounds. */
  ghost predicate Trace(snaps: seq<Snap>, rounds: seq<Round>, probe: Timer) {
    |snaps| == |rounds| + 1 && forall k :: 0 <= k < |rounds| ==> Played(snaps[k], rounds[k], snaps[k + 1], probe)
  }

  lemma TraceSnoc(snaps: seq<Snap>, rounds: seq<Round>, s: Snap, round: Round, probe: Timer)
    requires Trace(snaps, rounds, probe) && Played(snaps[|rounds|], round, s, probe)
    ensures Trace(snaps + [s], rounds + [round], probe)
  {
    var snaps', rounds' := snaps + [s], rounds + [round];
    forall k | 0 <= k < |rounds'| ensures Played(snaps'[k], rounds'[k], snaps'[k + 1], probe) {
    }
  }

  /** All rounds together: no timer ran early or late, and the probe was inserted
      exactly as often as operations of the rounds, or of those callbacks that have run,
      have scheduled it. */
  lemma {:induction false} TraceSum(snaps: seq<Snap>, rounds: seq<Round>, probe: Timer)
    requires Trace(snaps, rounds, probe)
    ensures var a, b := snaps[0], snaps[|rounds|];
            && a.now <= b.now && Punctual(a.fired, b.fired)
            && Booked(a.ledger, b.ledger, ScheduledRounds(rounds, probe), NamedRounds(rounds, probe.id))
    decreases |rounds|
  {
    if rounds != [] {
      var n := |rounds| - 1;
      TraceSum(snaps[..n + 1], rounds[..n], probe);
      assert Played(snaps[n], rounds[n], snaps[n + 1], probe);
      PunctualTrans(snaps[0].fired, snaps[n].fired, snaps[n + 1].fired);
    }
  }

  /** An event loop that never sleeps longer than the wheel said plays the rounds one
      by one. Whatever the rounds and the callbacks do, no timer runs early; a timer
      that was inserted when it was already due runs at that time, any other one no
      later than one RESOLUTION after it was due. Each one runs: once its time has
      passed, every insertion has been cancelled or has led to a call. */
  method Drive(wheel: Wheel, last: nat, first: int, rounds: seq<Round>) returns (now: nat, ghost snaps: seq<Snap>)
    requires wheel.Valid() && wheel.clock == last && wheel.ready == [] && Promised(wheel.buckets, last, first)
    modifies wheel
    ensures wheel.Valid() && last <= now == wheel.clock && wheel.ready == []
    ensures Trace(snaps, rounds, wheel.probe) && snaps[0] == old(wheel.Snapshot(first))
    ensures snaps[|rounds|] == wheel.Snapshot(snaps[|rounds|].sleep)
    ensures Punctual(old(wheel.fired), wheel.fired)
    ensures Booked(old(wheel.Ledger()), wheel.Ledger(), ScheduledRounds(rounds, wheel.probe), NamedRounds(rounds, wheel.probe.id))
    ensures rounds != [] && wheel.probe.due < GetBucketStartTime(now) ==>
              wheel.inserted == wheel.cancelled + CountFired(wheel.fired, wheel.probe)
    ensures rounds != [] && wheel.probe.due < GetBucketStartTime(now)
            && Named(old(wheel.script), wheel.probe.id) + NamedRounds(rounds, wheel.probe.id) == 0 ==>
              CountFired(wheel.fired, wheel.probe) == old(CountFired(wheel.fired, wheel.probe) + wheel.Pending())
  {
    var sleep := first;
    now, snaps := last, [wheel.Snapshot(first)];
    for k := 0 to |rounds|
      invariant wheel.Valid() && now == wheel.clock && wheel.ready == [] && Promised(wheel.buckets, now, sleep)
      invariant Trace(snaps, rounds[..k], wheel.probe) && snaps[0] == old(wheel.Snapshot(first))
      invariant snaps[k] == wheel.Snapshot(sleep)
    {
      now, sleep := PlayRound(wheel, now, sleep, rounds[k]);
      TraceSnoc(snaps, rounds[..k], wheel.Snapshot(sleep), rounds[k], wheel.probe);
      assert rounds[..k + 1] == rounds[..k] + [rounds[k]];
      snaps := snaps + [wheel.Snapshot(sleep)];
    }
    assert rounds[..|rounds|] == rounds;
    TraceSum(snaps, rounds, wheel.probe);
  }

  /** The same from the start, for every timer and whatever the callbacks and the
      rounds do: each call has taken the next entry of the script; the timer was
      inserted exactly as often as the rounds and these callbacks have scheduled it; and
      once its time has passed, it has run exactly as often as it was inserted and not
      cancelled. */
  method DriveNew(ghost probe: Timer, script: seq<seq<Op>>, rounds: seq<Round>) returns (wheel: Wheel, now: nat, ghost snaps: seq<Snap>)
    ensures fresh(wheel) && wheel.Valid() && now == wheel.clock && wheel.ready == [] && wheel.probe == probe
    ensures Trace(snaps, rounds, probe)
    ensures snaps[0] == Snap(0, -1, Account(0, 0, Scheduled(script, probe), Named(script, probe.id)), 0, [])
    ensures snaps[|rounds|] == wheel.Snapshot(snaps[|rounds|].sleep)
    ensures Punctual([], wheel.fired) && wheel.script == Remaining(script, |wheel.fired|)
    ensures wheel.inserted + Scheduled(wheel.script, probe) == Scheduled(script, probe) + ScheduledRounds(rounds, probe)
    ensures wheel.cancelled <= Named(script, probe.id) + NamedRounds(rounds, probe.id)
    ensures rounds != [] && probe.due < GetBucketStartTime(now) ==>
              wheel.inserted == wheel.cancelled + CountFired(wheel.fired, probe)
  {
    wheel := new Wheel(probe, script);
    now, snaps := Drive(wheel, 0, -1, rounds);
  }
}
