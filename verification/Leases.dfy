/** Lease liveness and the sweep of src/discover.zig. Every node has its own
    clock; file times are the origin's. */
module Leases {
  import opened Pieces

  const TTL: int := 30
  const SKEW: int := 15
  const REFRESH: int := 10
  const SWEEP_AGE: int := 300
  const I64_MAX: int := 0x7FFF_FFFF_FFFF_FFFF
  const I64_MIN: int := -0x8000_0000_0000_0000

  type i64 = x: int | I64_MIN <= x <= I64_MAX

  /** `+|` and `-|`. */
  function Saturate(x: int): i64 { if x > I64_MAX then I64_MAX else if x < I64_MIN then I64_MIN else x }

  function Until(now: i64): i64 { Saturate(now + TTL) }

  predicate LeaseLive(until: i64, now: i64) { Saturate(until + SKEW) > now }

  /** A publisher whose last publish is at most `age` seconds old is live to every
      reader whose clock leads its by less than 45 - age seconds, and to no other;
      with a refresh every 10 s that is a lead of under 35 s. */
  lemma LiveWithinLead(published: i64, age: nat, lead: int)
    requires 0 <= published && published + age + lead <= I64_MAX - TTL - SKEW
    requires I64_MIN <= published + age + lead
    ensures LeaseLive(Until(published), published + age + lead) <==> lead < TTL + SKEW - age
  {
  }

  lemma RefreshedIsLive(published: i64, age: nat, lead: int)
    requires 0 <= published && age <= REFRESH && lead < 35
    requires I64_MIN <= published + age + lead <= I64_MAX - TTL - SKEW
    ensures LeaseLive(Until(published), published + age + lead)
  {
    LiveWithinLead(published, age, lead);
  }

  /** Time does not bring a lease back. */
  lemma ExpiryIsFinal(until: i64, now: i64, later: i64)
    requires now <= later && !LeaseLive(until, now)
    ensures !LeaseLive(until, later)
  {
  }

  /* ---- the sweep ---- */

  /** A directory entry and its mtime on the origin's clock. */
  type Dir = map<string, i64>

  function Cutoff(own: i64): i64 { Saturate(own - SWEEP_AGE) }

  predicate EndsWith(s: string, t: string) { |t| <= |s| && s[|s| - |t|..] == t }

  /** Names the sweep of the cluster directory considers. */
  predicate Swept(name: string, self: string) {
    name != "" && name[0] != '.' &&
    if EndsWith(name, ".json") then name[..|name| - 5] != self else EndsWith(name, ".tmp")
  }

  /** They are the leases of other nodes and what a publish that died left, but no
      hidden file. */
  lemma SweptIs(name: string, self: string)
    ensures Swept(name, self) <==>
      && name != "" && name[0] != '.'
      && ((exists host :: name == host + ".json" && host != self) || exists stem :: name == stem + ".tmp")
  {
    var n := |name|;
    if EndsWith(name, ".json") {
      assert name == name[..n - 5] + ".json" && name[n - 1] == 'n';
    } else if EndsWith(name, ".tmp") {
      assert name == name[..n - 4] + ".tmp";
    }
    forall host | name == host + ".json" ensures EndsWith(name, ".json") && name[..n - 5] == host {
    }
    forall stem | name == stem + ".tmp" ensures EndsWith(name, ".tmp") && name[n - 1] == 'p' {
    }
  }

  /** `sweepLeases` on one directory. `order` is the sorted list of names that
      qualify; any unlink may fail or lose the race (`gone`). */
  method SweepLeases(dir: Dir, self: string, order: seq<string>, gone: set<string>) returns (left: Dir)
    requires forall n :: n in order ==> Swept(n, self)
    ensures left.Keys <= dir.Keys && forall n :: n in left ==> left[n] == dir[n]
    // no own lease, no sweep; and never the own lease
    ensures self + ".json" !in dir ==> left == dir
    ensures self + ".json" in dir ==> self + ".json" in left
    // exactly the stale ones go
    ensures self + ".json" in dir ==> forall n :: n in dir && n !in left ==>
              n in order && dir[n] <= Cutoff(dir[self + ".json"])
    ensures self + ".json" in dir ==> forall n :: n in order && n in dir && dir[n] <= Cutoff(dir[self + ".json"]) ==>
              n !in left || n in gone
  {
    left := dir;
    if self + ".json" !in dir { return; }
    var cutoff := Cutoff(dir[self + ".json"]);
    OwnIsNotSwept(self);
    for k := 0 to |order|
      invariant left.Keys <= dir.Keys && forall n :: n in left ==> left[n] == dir[n]
      invariant self + ".json" in left
      invariant forall n :: n in dir && n !in left ==> n in order && dir[n] <= cutoff
      invariant forall j :: 0 <= j < k && order[j] in dir && dir[order[j]] <= cutoff ==>
            order[j] !in left || order[j] in gone
    {
      var name := order[k];
      if name !in left || left[name] > cutoff { continue; }
      if name in gone { continue; }
      assert name in order;
      left := left - {name};
    }
  }

  lemma OwnIsNotSwept(self: string)
    ensures !Swept(self + ".json", self)
  {
    var name := self + ".json";
    assert name[|name| - 5..] == ".json" && name[..|name| - 5] == self;
  }

  /* ---- publishers and sweepers together ---- */

  /** The directory, the origin's time, and what each sweeper has found stale and
      is about to unlink, with the mtime it saw. No node's own clock is here. */
  datatype Origin = Origin(now: i64, dir: Dir, doomed: map<string, (string, i64)>)

  datatype Action =
    | Tick(to: i64)
    | Publish(name: string)
    | Find(sweeper: string, name: string)     // lstat against the cutoff
    | Unlink(sweeper: string)
    | Spare(sweeper: string)                  // unlink failed, or lost its race

  predicate Enabled(o: Origin, a: Action) {
    match a
    case Tick(to) => o.now <= to
    case Publish(_) => true
    case Find(s, n) =>
      s + ".json" in o.dir && Swept(n, s) && n in o.dir && s !in o.doomed && o.dir[n] <= Cutoff(o.dir[s + ".json"])
    case Unlink(s) => s in o.doomed
    case Spare(s) => s in o.doomed
  }

  function Apply(o: Origin, a: Action): Origin
    requires Enabled(o, a)
  {
    match a
    case Tick(to) => o.(now := to)
    case Publish(n) => o.(dir := o.dir[n := o.now])
    case Find(s, n) => o.(doomed := o.doomed[s := (n, o.dir[n])])
    case Unlink(s) => o.(dir := o.dir - {o.doomed[s].0}, doomed := o.doomed - {s})
    case Spare(s) => o.(doomed := o.doomed - {s})
  }

  ghost predicate Inv(o: Origin) {
    && (forall n :: n in o.dir ==> o.dir[n] <= o.now)
    && (forall s :: s in o.doomed ==> o.doomed[s].1 <= Saturate(o.now - SWEEP_AGE))
    && I64_MIN + SWEEP_AGE <= o.now
  }

  ghost predicate Runs(o: Origin, acts: seq<Action>)
    decreases |acts|
  {
    acts == [] || (Enabled(o, acts[0]) && Runs(Apply(o, acts[0]), acts[1..]))
  }

  ghost function After(o: Origin, acts: seq<Action>): Origin
    requires Runs(o, acts)
    decreases |acts|
  {
    if acts == [] then o else After(Apply(o, acts[0]), acts[1..])
  }

  lemma StepKeepsInv(o: Origin, a: Action)
    requires Inv(o) && Enabled(o, a)
    ensures Inv(Apply(o, a))
  {
  }

  lemma {:induction false} RunKeepsInv(o: Origin, acts: seq<Action>)
    requires Inv(o) && Runs(o, acts)
    ensures Inv(After(o, acts))
    decreases |acts|
  {
    if acts != [] {
      StepKeepsInv(o, acts[0]);
      RunKeepsInv(Apply(o, acts[0]), acts[1..]);
    }
  }

  /** In any run, what a sweeper unlinks had gone 300 s without a refresh when it
      looked, by the origin's time; a lease refreshed within 300 s goes only if
      that refresh came between the look and the unlink. */
  lemma SweptWasStale(o: Origin, acts: seq<Action>, sweeper: string)
    requires Inv(o) && Runs(o, acts) && sweeper in After(o, acts).doomed
    ensures var v := After(o, acts);
      var (name, seen) := v.doomed[sweeper];
      && seen <= v.now - SWEEP_AGE
      && (name in v.dir && v.now - v.dir[name] < SWEEP_AGE ==> v.dir[name] > seen)
  {
    RunKeepsInv(o, acts);
  }

  predicate Fresh(o: Origin, name: string) { name in o.dir ==> o.now - o.dir[name] < SWEEP_AGE }

  ghost predicate StaysFresh(o: Origin, acts: seq<Action>, name: string)
    requires Runs(o, acts)
    decreases |acts|
  {
    Fresh(o, name) && (acts == [] || StaysFresh(Apply(o, acts[0]), acts[1..], name))
  }

  ghost predicate Doomed(o: Origin, name: string) { exists s :: s in o.doomed && o.doomed[s].0 == name }

  /** A lease that never grows 300 s old is never swept, by any number of sweepers
      and whatever any node's clock says. */
  lemma {:induction false} FreshLeaseIsKept(o: Origin, acts: seq<Action>, name: string)
    requires Inv(o) && Runs(o, acts) && StaysFresh(o, acts, name) && name in o.dir && !Doomed(o, name)
    ensures name in After(o, acts).dir && !Doomed(After(o, acts), name)
    decreases |acts|
  {
    if acts != [] {
      StepKeepsInv(o, acts[0]);
      StepKeepsFresh(o, acts[0], name);
      FreshLeaseIsKept(Apply(o, acts[0]), acts[1..], name);
    }
  }

  lemma StepKeepsFresh(o: Origin, a: Action, name: string)
    requires Inv(o) && Enabled(o, a) && Fresh(o, name) && name in o.dir && !Doomed(o, name)
    ensures name in Apply(o, a).dir && !Doomed(Apply(o, a), name)
  {
  }

  /** What a sweeper that is not busy can take: a swept name whose mtime is 300 s or more
      behind the sweeper's own lease; the unlink then removes that name and no other. */
  lemma StaleLeaseGoes(o: Origin, sweeper: string, name: string)
    requires sweeper + ".json" in o.dir && I64_MIN + SWEEP_AGE <= o.dir[sweeper + ".json"]
    requires name in o.dir && Swept(name, sweeper)
    ensures Enabled(o, Find(sweeper, name)) <==>
            sweeper !in o.doomed && o.dir[sweeper + ".json"] - o.dir[name] >= SWEEP_AGE
    ensures Enabled(o, Find(sweeper, name)) ==>
      var v := Apply(o, Find(sweeper, name));
      && Enabled(v, Unlink(sweeper)) && Enabled(v, Spare(sweeper))
      && Apply(v, Unlink(sweeper)) == o.(dir := o.dir - {name})
      && Apply(v, Spare(sweeper)) == o
  {
    if Enabled(o, Find(sweeper, name)) {
      var v := Apply(o, Find(sweeper, name));
      assert v.doomed - {sweeper} == o.doomed;
    }
  }

  /** The look and the unlink are two steps: a node that comes back in between
      loses the lease it has just refreshed. */
  lemma ReturningLeaseCanGo(o: Origin, sweeper: string, name: string)
    requires Inv(o) && Enabled(o, Find(sweeper, name))
    ensures var found := Apply(o, Find(sweeper, name));
      var back := Apply(found, Publish(name));
      && back.dir[name] == back.now
      && Enabled(back, Unlink(sweeper)) && name !in Apply(back, Unlink(sweeper)).dir
  {
  }
}
