/** Request admission at the collector (crates/syspilot-cloud/src/lib.rs): a semaphore per identity,
    kept in a bounded table that evicts idle entries, and one global semaphore.

    A request takes its permits in separate atomic steps, so any number of threads interleave.
    Semaphores are heap objects named by `SemId`; a thread can go on holding one that the table no
    longer lists, which is what could let an identity spend its budget twice. */
module Admission {
  import opened Prelude

  datatype Key = Key(tenant: string, node: string)

  type SemId = nat

  type Thread = nat

  datatype Config = Config(capacity: nat, perIdentity: nat, maxIdentities: nat)

  function NewConfig(capacity: nat): Config {
    Config(capacity, if capacity / 4 > 1 then capacity / 4 else 1,
           if capacity * 4 > MAX_U64 then MAX_U64 else capacity * 4)
  }

  /** Where a request is: nothing held, a reference to its semaphore, the identity permit as well,
      both permits, or (identity permit already dropped) the global one only. */
  datatype Phase =
    | Idle
    | Referring(key: Key, sem: SemId)
    | Identified(key: Key, sem: SemId)
    | Admitted(key: Key, sem: SemId)
    | Leaving

  datatype State = State(
    table: map<Key, SemId>, available: map<SemId, nat>, nextSem: SemId, global: nat, threads: map<Thread, Phase>)

  function Start(cfg: Config): State {
    State(map[], map[], 0, cfg.capacity, map[])
  }

  function PhaseOf(threads: map<Thread, Phase>, t: Thread): Phase {
    if t in threads then threads[t] else Idle
  }

  predicate HasReference(p: Phase) {
    p.Referring? || p.Identified? || p.Admitted?
  }

  predicate Refers(p: Phase, sem: SemId) {
    HasReference(p) && p.sem == sem
  }

  predicate HoldsIdentity(p: Phase, key: Key) {
    (p.Identified? || p.Admitted?) && p.key == key
  }

  predicate HoldsGlobal(p: Phase) {
    p.Admitted? || p.Leaving?
  }

  function Holders(threads: map<Thread, Phase>, holds: Phase -> bool): set<Thread> {
    set t | t in threads && holds(threads[t])
  }

  /** Threads holding a permit of `key`'s budget, whichever semaphore it came from. */
  function IdentityHolders(threads: map<Thread, Phase>, key: Key): set<Thread> {
    Holders(threads, p => HoldsIdentity(p, key))
  }

  function GlobalHolders(threads: map<Thread, Phase>): set<Thread> {
    Holders(threads, HoldsGlobal)
  }

  /** `Arc::strong_count(..) > 1`: somebody besides the table refers to the semaphore. */
  predicate InUse(threads: map<Thread, Phase>, sem: SemId) {
    exists t | t in threads :: Refers(threads[t], sem)
  }

  datatype Step =
    | Lookup(thread: Thread, key: Key, evicted: set<Key>)
    | TakeIdentity(thread: Thread)
    | TakeGlobal(thread: Thread)
    | DropIdentity(thread: Thread)
    | DropGlobal(thread: Thread)

  /** What a retain pass may remove.  References can be dropped while the pass runs but none can be
      added, so it removes some of the entries that are idle when it ends. */
  predicate MayEvict(s: State, evicted: set<Key>) {
    forall k | k in evicted :: k in s.table && !InUse(s.threads, s.table[k])
  }

  predicate Enabled(cfg: Config, s: State, step: Step) {
    var p := PhaseOf(s.threads, step.thread);
    match step
    case Lookup(_, key, evicted) =>
      p.Idle? && if key !in s.table && |s.table| >= cfg.maxIdentities then MayEvict(s, evicted) else evicted == {}
    case TakeIdentity(_) => p.Referring?
    case TakeGlobal(_) => p.Identified?
    case DropIdentity(_) => p.Admitted?
    case DropGlobal(_) => p.Leaving?
  }

  /** The critical section of `try_acquire`: evict if need be, then find or create the entry. */
  function Entered(cfg: Config, s: State, t: Thread, key: Key, evicted: set<Key>): State {
    var s' := s.(table := s.table - evicted);
    if key in s'.table then
      s'.(threads := s.threads[t := Referring(key, s'.table[key])])
    else if |s'.table| >= cfg.maxIdentities then
      s'
    else
      s'.(table := s'.table[key := s.nextSem], available := s.available[s.nextSem := cfg.perIdentity],
          nextSem := s.nextSem + 1, threads := s.threads[t := Referring(key, s.nextSem)])
  }

  function Budget(s: State, sem: SemId): nat {
    if sem in s.available then s.available[sem] else 0
  }

  function Next(cfg: Config, s: State, step: Step): State
    requires Enabled(cfg, s, step)
  {
    var t, p := step.thread, PhaseOf(s.threads, step.thread);
    match step
    case Lookup(_, key, evicted) => Entered(cfg, s, t, key, evicted)
    case TakeIdentity(_) =>
      if Budget(s, p.sem) > 0 then
        s.(available := s.available[p.sem := Budget(s, p.sem) - 1], threads := s.threads[t := Identified(p.key, p.sem)])
      else
        s.(threads := s.threads[t := Idle])
    case TakeGlobal(_) =>
      if s.global > 0 then
        s.(global := s.global - 1, threads := s.threads[t := Admitted(p.key, p.sem)])
      else
        s.(available := s.available[p.sem := Budget(s, p.sem) + 1], threads := s.threads[t := Idle])
    case DropIdentity(_) =>
      s.(available := s.available[p.sem := Budget(s, p.sem) + 1], threads := s.threads[t := Leaving])
    case DropGlobal(_) =>
      s.(global := s.global + 1, threads := s.threads[t := Idle])
  }

  /** Runs a schedule; a step that is not enabled does nothing. */
  function Run(cfg: Config, schedule: seq<Step>): State {
    if schedule == [] then Start(cfg) else
    var s := Run(cfg, schedule[..|schedule| - 1]);
    var step := schedule[|schedule| - 1];
    if Enabled(cfg, s, step) then Next(cfg, s, step) else s
  }

  // ---- The invariant -----------------------------------------------------------------------------------

  predicate Listed(table: map<Key, SemId>, p: Phase)
    requires HasReference(p)
  {
    p.key in table && table[p.key] == p.sem
  }

  /** Every reference held by a thread is to the semaphore the table lists now. */
  ghost predicate Current(s: State) {
    && (forall k | k in s.table :: s.table[k] < s.nextSem)
    && (forall k, l | k in s.table && l in s.table && s.table[k] == s.table[l] :: k == l)
    && (forall t | t in s.threads && HasReference(s.threads[t]) :: Listed(s.table, s.threads[t]))
  }

  ghost predicate Balanced(cfg: Config, s: State) {
    && s.global + |GlobalHolders(s.threads)| == cfg.capacity
    && forall k | k in s.table :: Budget(s, s.table[k]) + |IdentityHolders(s.threads, k)| == cfg.perIdentity
  }

  ghost predicate Inv(cfg: Config, s: State) {
    Current(s) && Balanced(cfg, s) && |s.table| <= cfg.maxIdentities
  }

  function One(b: bool): nat {
    if b then 1 else 0
  }

  /** Changing one thread's phase moves at most that thread in or out of a set of holders. */
  lemma HoldersAfter(threads: map<Thread, Phase>, t: Thread, p: Phase, holds: Phase -> bool)
    requires !holds(Idle)
    ensures |Holders(threads[t := p], holds)| + One(holds(PhaseOf(threads, t))) == |Holders(threads, holds)| + One(holds(p))
  {
    var before, after := Holders(threads, holds), Holders(threads[t := p], holds);
    forall x | x != t
      ensures x in before <==> x in after
    {
    }
    OneElement(before, after, t);
  }

  lemma Without<T>(a: set<T>, t: T)
    ensures |a| == |a - {t}| + One(t in a)
  {
    if t !in a {
      assert a - {t} == a;
    }
  }

  lemma OneElement<T>(a: set<T>, b: set<T>, t: T)
    requires forall x | x != t :: x in a <==> x in b
    ensures |b| + One(t in a) == |a| + One(t in b)
  {
    Without(a, t);
    Without(b, t);
    assert a - {t} == b - {t};
  }

  /** A phase change keeps the invariant when the new phase refers to a listed semaphore and the
      budgets move against the holders. */
  lemma PhaseChangeKeepsInv(cfg: Config, s: State, s': State, t: Thread, p: Phase)
    requires Inv(cfg, s)
    requires s'.table == s.table && s'.nextSem == s.nextSem && s'.threads == s.threads[t := p]
    requires HasReference(p) ==> Listed(s.table, p)
    requires s'.global + One(HoldsGlobal(p)) == s.global + One(HoldsGlobal(PhaseOf(s.threads, t)))
    requires forall k | k in s.table ::
               Budget(s', s.table[k]) + One(HoldsIdentity(p, k))
               == Budget(s, s.table[k]) + One(HoldsIdentity(PhaseOf(s.threads, t), k))
    ensures Inv(cfg, s')
  {
    hide Holders, Budget, HoldsGlobal, HoldsIdentity, One, PhaseOf;
    assert !HoldsGlobal(Idle) by { IdleHoldsNothing(Key("", "")); }
    HoldersAfter(s.threads, t, p, HoldsGlobal);
    forall k | k in s.table
      ensures Budget(s', s.table[k]) + |IdentityHolders(s'.threads, k)| == cfg.perIdentity
    {
      IdleHoldsNothing(k);
      HoldersAfter(s.threads, t, p, q => HoldsIdentity(q, k));
    }
  }

  lemma IdleHoldsNothing(k: Key)
    ensures !HoldsGlobal(Idle) && !HoldsIdentity(Idle, k)
  {
  }

  /** Only idle entries are evicted, so nobody is left with a semaphore outside the table. */
  lemma EvictionKeepsInv(cfg: Config, s: State, evicted: set<Key>)
    requires Inv(cfg, s) && MayEvict(s, evicted)
    ensures Inv(cfg, s.(table := s.table - evicted))
  {
    hide Holders;
    var s' := s.(table := s.table - evicted);
    assert s'.table.Keys == s.table.Keys - evicted;
    SubsetSize(s'.table.Keys, s.table.Keys);
    forall t | t in s.threads && HasReference(s.threads[t])
      ensures Listed(s'.table, s.threads[t])
    {
      assert Listed(s.table, s.threads[t]);
      assert Refers(s.threads[t], s.table[s.threads[t].key]);
    }
  }

  lemma NobodyHolds(s: State, key: Key)
    requires Current(s) && key !in s.table
    ensures IdentityHolders(s.threads, key) == {}
  {
    forall t | t in s.threads
      ensures !HoldsIdentity(s.threads[t], key)
    {
      assert HoldsIdentity(s.threads[t], key) ==> HasReference(s.threads[t]);
    }
  }

  /** A fresh semaphore may be listed under a key nobody holds. */
  lemma InsertKeepsInv(cfg: Config, s: State, key: Key)
    requires Inv(cfg, s) && key !in s.table && |s.table| < cfg.maxIdentities
    ensures Inv(cfg, s.(table := s.table[key := s.nextSem], available := s.available[s.nextSem := cfg.perIdentity],
                        nextSem := s.nextSem + 1))
  {
    hide Holders;
    NobodyHolds(s, key);
  }

  lemma EnterKeepsInv(cfg: Config, s: State, t: Thread, key: Key, evicted: set<Key>)
    requires Inv(cfg, s) && Enabled(cfg, s, Lookup(t, key, evicted))
    ensures Inv(cfg, Entered(cfg, s, t, key, evicted))
  {
    hide Inv;
    if evicted == {} {
      assert s.table - {} == s.table;
    } else {
      EvictionKeepsInv(cfg, s, evicted);
    }
    var e := s.(table := s.table - evicted);
    assert Inv(cfg, e);
    if key in e.table {
      PhaseChangeKeepsInv(cfg, e, Entered(cfg, s, t, key, evicted), t, Referring(key, e.table[key]));
    } else if |e.table| < cfg.maxIdentities {
      InsertKeepsInv(cfg, e, key);
      var e' := e.(table := e.table[key := e.nextSem], available := e.available[e.nextSem := cfg.perIdentity],
                   nextSem := e.nextSem + 1);
      PhaseChangeKeepsInv(cfg, e', Entered(cfg, s, t, key, evicted), t, Referring(key, e.nextSem));
    }
  }

  lemma ReferencesListed(cfg: Config, s: State, t: Thread)
    requires Inv(cfg, s) && HasReference(PhaseOf(s.threads, t))
    ensures Listed(s.table, PhaseOf(s.threads, t))
  {
  }

  lemma ListedApart(cfg: Config, s: State, p: Phase)
    requires Inv(cfg, s) && HasReference(p) && Listed(s.table, p)
    ensures forall k | k in s.table && s.table[k] == p.sem :: k == p.key
  {
  }

  lemma PermitKeepsInv(cfg: Config, s: State, step: Step)
    requires Inv(cfg, s) && Enabled(cfg, s, step) && !step.Lookup?
    ensures Inv(cfg, Next(cfg, s, step))
  {
    hide Inv, Holders;
    var t := step.thread;
    var s' := Next(cfg, s, step);
    var was, now := PhaseOf(s.threads, t), s'.threads[t];
    if HasReference(was) {
      ReferencesListed(cfg, s, t);
      ListedApart(cfg, s, was);
    }
    forall k | k in s.table
      ensures Budget(s', s.table[k]) + One(HoldsIdentity(now, k)) == Budget(s, s.table[k]) + One(HoldsIdentity(was, k))
    {
    }
    PhaseChangeKeepsInv(cfg, s, s', t, now);
  }

  lemma {:induction false} RunKeepsInv(cfg: Config, schedule: seq<Step>)
    ensures Inv(cfg, Run(cfg, schedule))
  {
    if schedule == [] {
      assert GlobalHolders(map[]) == {};
    } else {
      hide Inv, Enabled, Entered;
      var s := Run(cfg, schedule[..|schedule| - 1]);
      var step := schedule[|schedule| - 1];
      RunKeepsInv(cfg, schedule[..|schedule| - 1]);
      if Enabled(cfg, s, step) {
        if step.Lookup? {
          EnterKeepsInv(cfg, s, step.thread, step.key, step.evicted);
        } else {
          PermitKeepsInv(cfg, s, step);
        }
      }
    }
  }

  /** Under every interleaving: no identity holds more than its share, all together no more than the
      capacity, and the table stays within its bound. */
  lemma AdmissionBounds(cfg: Config, schedule: seq<Step>, key: Key)
    ensures var s := Run(cfg, schedule);
            |IdentityHolders(s.threads, key)| <= cfg.perIdentity
            && |GlobalHolders(s.threads)| <= cfg.capacity
            && |s.table| <= cfg.maxIdentities
  {
    var s := Run(cfg, schedule);
    RunKeepsInv(cfg, schedule);
    if key !in s.table {
      NobodyHolds(s, key);
    }
  }

  /** A request is refused for its identity only while that identity really holds its whole share,
      and for want of capacity only while all of it is really held. */
  lemma RefusalsAreHonest(cfg: Config, schedule: seq<Step>, t: Thread)
    ensures var s := Run(cfg, schedule);
            var p := PhaseOf(s.threads, t);
            && (p.Referring? ==>
                  (Next(cfg, s, TakeIdentity(t)).threads[t].Idle? <==> |IdentityHolders(s.threads, p.key)| == cfg.perIdentity))
            && (p.Identified? ==>
                  (Next(cfg, s, TakeGlobal(t)).threads[t].Idle? <==> |GlobalHolders(s.threads)| == cfg.capacity))
  {
    hide Run;
    RunKeepsInv(cfg, schedule);
    var s := Run(cfg, schedule);
    var p := PhaseOf(s.threads, t);
    if p.Referring? {
      assert Listed(s.table, s.threads[t]);
    }
  }

  /** What a retain pass removes when no reference is dropped meanwhile: every idle entry. */
  function IdleEntries(s: State): set<Key> {
    set k | k in s.table && !InUse(s.threads, s.table[k])
  }

  /** A request holds a reference to the semaphore, with or without permits. */
  predicate Referenced(threads: map<Thread, Phase>, sem: SemId) {
    exists t | t in threads ::
      (threads[t].Referring? || threads[t].Identified? || threads[t].Admitted?) && threads[t].sem == sem
  }

  lemma ReferencedExactly(threads: map<Thread, Phase>, sem: SemId)
    ensures Referenced(threads, sem) <==> InUse(threads, sem)
  {
    if t :| t in threads && (threads[t].Referring? || threads[t].Identified? || threads[t].Admitted?) && threads[t].sem == sem {
      assert Refers(threads[t], sem);
    }
  }

  /** The third refusal: at the table.  In every run a lookup is refused if and only if the key is
      unlisted, the table is full and the retain pass removes nothing; a pass that removes every idle
      entry removes nothing exactly when all entries are in use. */
  lemma LookupRefusedExactly(cfg: Config, schedule: seq<Step>, t: Thread, key: Key, evicted: set<Key>)
    requires Enabled(cfg, Run(cfg, schedule), Lookup(t, key, evicted))
    ensures var s := Run(cfg, schedule);
            && (PhaseOf(Next(cfg, s, Lookup(t, key, evicted)).threads, t).Idle?
                <==> key !in s.table && |s.table| == cfg.maxIdentities && evicted == {})
            && (IdleEntries(s) == {} <==> forall k | k in s.table :: Referenced(s.threads, s.table[k]))
            && (evicted == IdleEntries(s) ==>
                  (PhaseOf(Next(cfg, s, Lookup(t, key, evicted)).threads, t).Idle?
                   <==> key !in s.table && |s.table| == cfg.maxIdentities
                        && forall k | k in s.table :: Referenced(s.threads, s.table[k])))
  {
    hide Run, Next, Enabled, PhaseOf, IdleEntries, Referenced;
    RunKeepsInv(cfg, schedule);
    LookupStep(cfg, Run(cfg, schedule), t, key, evicted);
    NoneIdle(Run(cfg, schedule));
  }

  lemma LookupStep(cfg: Config, s: State, t: Thread, key: Key, evicted: set<Key>)
    requires Inv(cfg, s) && Enabled(cfg, s, Lookup(t, key, evicted))
    ensures PhaseOf(Next(cfg, s, Lookup(t, key, evicted)).threads, t).Idle?
            <==> key !in s.table && |s.table| == cfg.maxIdentities && evicted == {}
  {
    hide InUse, Current, Balanced;
    if evicted == {} {
      assert s.table - evicted == s.table;
    } else {
      assert evicted <= s.table.Keys;
      assert (s.table - evicted).Keys == s.table.Keys - evicted;
    }
  }

  lemma NoneIdle(s: State)
    ensures IdleEntries(s) == {} <==> forall k | k in s.table :: Referenced(s.threads, s.table[k])
  {
    hide InUse, Referenced;
    forall k | k in s.table
      ensures Referenced(s.threads, s.table[k]) <==> k !in IdleEntries(s)
    {
      ReferencedExactly(s.threads, s.table[k]);
    }
  }

  /** The `i`th of a row of different identities. */
  function Identity(i: nat): Key {
    Key([], seq(i, _ => 'n'))
  }

  lemma IdentitiesDiffer(i: nat, j: nat)
    requires i != j
    ensures Identity(i) != Identity(j)
  {
    assert |Identity(i).node| == i && |Identity(j).node| == j;
  }

  predicate InCrowd(s: State, i: nat) {
    && Identity(i) in s.table && s.table[Identity(i)] == i
    && i in s.threads && s.threads[i] == Referring(Identity(i), i)
  }

  /** `n` requests of different identities, each just past its lookup. */
  ghost predicate Crowded(s: State, n: nat) {
    && s.nextSem == n && |s.table| == n
    && (forall i: nat | i < n :: InCrowd(s, i))
    && (forall k | k in s.table :: |k.node| < n && k == Identity(|k.node|))
    && (forall t | t in s.threads :: t < n && s.threads[t].Referring?)
  }

  lemma OneMore(cfg: Config, s: State, n: nat)
    requires Crowded(s, n) && n < cfg.maxIdentities
    ensures Enabled(cfg, s, Lookup(n, Identity(n), {})) && Crowded(Next(cfg, s, Lookup(n, Identity(n), {})), n + 1)
  {
    assert s.table - {} == s.table;
    var s' := Next(cfg, s, Lookup(n, Identity(n), {}));
    assert |Identity(n).node| == n;
    forall i: nat | i < n + 1
      ensures InCrowd(s', i)
    {
      if i < n {
        assert InCrowd(s, i);
        IdentitiesDiffer(i, n);
      }
    }
  }

  lemma {:induction false} Crowd(cfg: Config, n: nat) returns (schedule: seq<Step>)
    requires n <= cfg.maxIdentities
    ensures Crowded(Run(cfg, schedule), n)
  {
    hide Crowded, Identity, Enabled, Next;
    if n == 0 {
      schedule := [];
      NoCrowd(cfg);
    } else {
      var before := Crowd(cfg, n - 1);
      schedule := before + [Lookup(n - 1, Identity(n - 1), {})];
      assert schedule[..|before|] == before;
      OneMore(cfg, Run(cfg, before), n - 1);
    }
  }

  lemma NoCrowd(cfg: Config)
    ensures Crowded(Run(cfg, []), 0)
  {
  }

  lemma CrowdHoldsNothing(s: State, n: nat)
    requires Crowded(s, n)
    ensures GlobalHolders(s.threads) == {} && forall k :: IdentityHolders(s.threads, k) == {}
    ensures Identity(n) !in s.table && n !in s.threads
    ensures forall k | k in s.table :: InUse(s.threads, s.table[k])
  {
    hide Identity;
    forall k | k in s.table
      ensures InUse(s.threads, s.table[k])
    {
      assert InCrowd(s, |k.node|);
      assert Refers(s.threads[|k.node|], s.table[k]);
    }
    assert Identity(n) !in s.table by {
      NamedByLength(n);
    }
  }

  lemma NamedByLength(n: nat)
    ensures |Identity(n).node| == n
  {
  }

  /** So requests are refused although nobody holds any permit: enough identities at their lookup fill
      the table, and the next identity is turned away even by a full retain pass. */
  lemma RefusedWithoutPermits(cfg: Config) returns (schedule: seq<Step>, t: Thread, key: Key)
    ensures var s := Run(cfg, schedule);
            && GlobalHolders(s.threads) == {} && (forall k :: IdentityHolders(s.threads, k) == {})
            && Enabled(cfg, s, Lookup(t, key, IdleEntries(s)))
            && PhaseOf(Next(cfg, s, Lookup(t, key, IdleEntries(s))).threads, t).Idle?
  {
    hide Run, Identity, Next, InUse, GlobalHolders, IdentityHolders;
    var n := cfg.maxIdentities;
    schedule := Crowd(cfg, n);
    t, key := n, Identity(n);
    var s := Run(cfg, schedule);
    CrowdHoldsNothing(s, n);
    assert IdleEntries(s) == {};
    LookupRefusedExactly(cfg, schedule, t, key, {});
  }

  /** Nothing leaks: with every request over, all permits are back. */
  lemma QuietMeansFull(cfg: Config, schedule: seq<Step>, key: Key)
    requires forall t | t in Run(cfg, schedule).threads :: Run(cfg, schedule).threads[t].Idle?
    ensures var s := Run(cfg, schedule);
            s.global == cfg.capacity && (key in s.table ==> Budget(s, s.table[key]) == cfg.perIdentity)
  {
    hide Run;
    var s := Run(cfg, schedule);
    RunKeepsInv(cfg, schedule);
    assert GlobalHolders(s.threads) == {} && IdentityHolders(s.threads, key) == {};
  }

  // ---- The object, one method per atomic action -----------------------------------------------------------

  /** As the collector is configured, no identity ever holds more than a quarter of the capacity (or one
      permit, if that is more), all together hold no more than the capacity, and the table never lists
      more than four identities for every permit. */
  lemma ConfiguredBounds(capacity: nat, schedule: seq<Step>, key: Key)
    ensures var s := Run(NewConfig(capacity), schedule);
            && (4 * |IdentityHolders(s.threads, key)| <= capacity || |IdentityHolders(s.threads, key)| <= 1)
            && |GlobalHolders(s.threads)| <= capacity && |s.table| <= 4 * capacity
    ensures var c := NewConfig(capacity);
            && c.capacity == capacity && (c.perIdentity == 1 || 4 * c.perIdentity <= capacity)
            && capacity < 4 * (c.perIdentity + 1)
            && (4 * capacity <= MAX_U64 ==> c.maxIdentities == 4 * capacity)
  {
    hide Run, IdentityHolders, GlobalHolders;
    AdmissionBounds(NewConfig(capacity), schedule, key);
  }

  class Admission {
    const config: Config
    var table: map<Key, SemId>
    var available: map<SemId, nat>
    var nextSem: SemId
    var global: nat
    var threads: map<Thread, Phase>

    ghost function View(): State
      reads this
    {
      State(table, available, nextSem, global, threads)
    }

    constructor (capacity: nat)
      ensures config == NewConfig(capacity) && View() == Start(config)
    {
      config := NewConfig(capacity);
      table, available, nextSem, global, threads := map[], map[], 0, capacity, map[];
    }

    /** `retain` on the locked table: keeps the entries somebody else refers to. */
    method RetainInUse() returns (ghost evicted: set<Key>)
      modifies this`table
      ensures MayEvict(old(View()), evicted) && table == old(table) - evicted
      ensures forall k :: k in evicted <==> k in old(table) && !Referenced(threads, old(table)[k])
    {
      hide InUse, Referenced;
      var entries := table;
      var pending := table.Keys;
      evicted := {};
      while pending != {}
        invariant pending <= old(table).Keys
        invariant MayEvict(old(View()), evicted) && table == old(table) - evicted
        invariant forall k | k in old(table) && k !in pending :: k in evicted <==> !Referenced(threads, old(table)[k])
        invariant evicted !! pending
        decreases pending
      {
        var k :| k in pending;
        pending := pending - {k};
        ReferencedExactly(threads, entries[k]);
        if !InUse(threads, entries[k]) {
          table := table - {k};
          evicted := evicted + {k};
        }
      }
    }

    method LookUp(t: Thread, key: Key) returns (found: bool, ghost evicted: set<Key>)
      requires PhaseOf(threads, t).Idle?
      modifies this
      ensures found <==> PhaseOf(threads, t).Referring?
      ensures Enabled(config, old(View()), Lookup(t, key, evicted))
      ensures View() == Entered(config, old(View()), t, key, evicted)
      ensures key !in old(table) && |old(table)| >= config.maxIdentities ==>
                forall k :: k in evicted <==> k in old(table) && !Referenced(old(threads), old(table)[k])
    {
      hide MayEvict, InUse, Referenced;
      ghost var s := View();
      evicted := {};
      if key !in table && |table| >= config.maxIdentities {
        evicted := RetainInUse();
      }
      assert View() == s.(table := s.table - evicted) by { assert s.table - {} == s.table; }
      if key in table {
        threads := threads[t := Referring(key, table[key])];
        found := true;
      } else if |table| >= config.maxIdentities {
        found := false;
      } else {
        table, available := table[key := nextSem], available[nextSem := config.perIdentity];
        threads, nextSem := threads[t := Referring(key, nextSem)], nextSem + 1;
        found := true;
      }
    }

    method TakeIdentityPermit(t: Thread) returns (ok: bool)
      requires PhaseOf(threads, t).Referring? && PhaseOf(threads, t).sem in available
      modifies this
      ensures View() == Next(config, old(View()), TakeIdentity(t))
      ensures ok <==> threads[t].Identified?
    {
      var p := threads[t];
      ok := available[p.sem] > 0;
      if ok {
        available := available[p.sem := available[p.sem] - 1];
      }
      threads := threads[t := if ok then Identified(p.key, p.sem) else Idle];
    }

    method TakeGlobalPermit(t: Thread) returns (ok: bool)
      requires PhaseOf(threads, t).Identified? && PhaseOf(threads, t).sem in available
      modifies this
      ensures View() == Next(config, old(View()), TakeGlobal(t))
      ensures ok <==> threads[t].Admitted?
    {
      var p := threads[t];
      ok := global > 0;
      if ok {
        global := global - 1;
        threads := threads[t := Admitted(p.key, p.sem)];
      } else {
        available := available[p.sem := available[p.sem] + 1];
        threads := threads[t := Idle];
      }
    }

    method Release(t: Thread)
      requires PhaseOf(threads, t).Admitted? && PhaseOf(threads, t).sem in available
      modifies this
      ensures View() == Next(config, Next(config, old(View()), DropIdentity(t)), DropGlobal(t))
    {
      var p := threads[t];
      available, threads := available[p.sem := available[p.sem] + 1], threads[t := Leaving];
      global, threads := global + 1, threads[t := Idle];
    }
  }
}
