/** The locks of `ConnectionManager` and the reader pool (src/connection.rs) as a state machine of
    any number of threads: pool mutex and condition variable, RwLock gate, writer mutex. */
module LockProtocol {
  import opened Prelude

  /** A call a thread makes.  Inside a transaction's closure further calls use the pinned
      connection; elsewhere callbacks make none. */
  datatype Call = Read | Write | Exclusive | Transact(inner: seq<Call>)

  datatype Pc =
    | Idle        // between calls
    | PoolLock    // checkout: asks for the pool mutex
    | PoolCheck   // holds the pool mutex: pops, or waits
    | PoolWait    // asleep in the condition variable
    | PoolWoken   // notified or woken spuriously: asks for the pool mutex again
    | WantRead    // asks for the gate, shared
    | WantWrite   // asks for the gate, exclusive
    | WantWriter  // holds the gate, asks for the writer mutex
    | Working     // runs its callback
    | DropWriter  // releases the writer mutex
    | DropGate    // releases the gate
    | PoolReturn  // drop of a checkout: asks for the pool mutex
    | PoolPush    // holds the pool mutex: pushes the connection
    | PoolNotify  // still holds it: notifies one waiter
    | PoolUnlock  // releases the pool mutex

  datatype Thread = Thread(call: Call, pc: Pc, conn: Option<nat>, inner: seq<Call>, todo: seq<Call>)

  /** `pooled` distinguishes file databases from in-memory ones; `all` are the pool's
      connections at the start. */
  datatype State = State(
    pooled: bool, all: multiset<nat>, threads: seq<Thread>,
    idle: seq<nat>, poolLock: Option<nat>,
    readers: set<nat>, exclusive: Option<nat>, writer: Option<nat>)

  predicate UsesPool(s: State, c: Call) { c.Read? && s.pooled }

  predicate UsesWriter(s: State, c: Call) { !UsesPool(s, c) }

  function Put(s: State, t: nat, x: Thread): State
    requires t < |s.threads|
  {
    s.(threads := s.threads[t := x])
  }

  function Goto(s: State, t: nat, pc: Pc): State
    requires t < |s.threads|
  {
    Put(s, t, s.threads[t].(pc := pc))
  }

  function FirstPc(s: State, c: Call): Pc {
    if c.Exclusive? then WantWrite else if UsesPool(s, c) then PoolLock else WantRead
  }

  predicate Finished(x: Thread) {
    x.pc.Idle? && x.todo == []
  }

  predicate NoneWantsWrite(ts: seq<Thread>) {
    forall u :: 0 <= u < |ts| ==> !ts[u].pc.WantWrite?
  }

  /** The guard of thread `t`'s next step.  `preferWriters` is the stricter RwLock policy that
      keeps new readers out while someone waits for exclusive access. */
  predicate Enabled(s: State, t: nat, preferWriters: bool)
    requires t < |s.threads|
  {
    match s.threads[t].pc
    case Idle => s.threads[t].todo != []
    case PoolLock => s.poolLock.None?
    case PoolWoken => s.poolLock.None?
    case PoolReturn => s.poolLock.None?
    case PoolWait => false
    case WantRead => s.exclusive.None? && (preferWriters ==> NoneWantsWrite(s.threads))
    case WantWrite => s.exclusive.None? && s.readers == {}
    case WantWriter => s.writer.None?
    case _ => true
  }

  predicate Wakes(s: State, pick: nat) {
    pick < |s.threads| && s.threads[pick].pc.PoolWait?
  }

  /** The step itself; `pick` is the waiter that a notification reaches. */
  function Next(s: State, t: nat, pick: nat): State
    requires t < |s.threads| && Enabled(s, t, false)
  {
    var x := s.threads[t];
    match x.pc
    case Idle =>
      var c := x.todo[0];
      Put(s, t, Thread(c, FirstPc(s, c), None, if c.Transact? then c.inner else [], x.todo[1..]))
    case PoolLock => Goto(s.(poolLock := Some(t)), t, PoolCheck)
    case PoolWoken => Goto(s.(poolLock := Some(t)), t, PoolCheck)
    case PoolCheck =>
      if s.idle == [] then Goto(s.(poolLock := None), t, PoolWait)
      else
        var conn := s.idle[|s.idle| - 1];
        Put(s.(poolLock := None, idle := s.idle[..|s.idle| - 1]), t, x.(pc := WantRead, conn := Some(conn)))
    case WantRead => Goto(s.(readers := s.readers + {t}), t, if UsesWriter(s, x.call) then WantWriter else Working)
    case WantWrite => Goto(s.(exclusive := Some(t)), t, WantWriter)
    case WantWriter => Goto(s.(writer := Some(t)), t, Working)
    case Working =>
      if x.inner != [] then Put(s, t, x.(inner := x.inner[1..]))
      else Goto(s, t, if UsesWriter(s, x.call) then DropWriter else DropGate)
    case DropWriter => Goto(s.(writer := None), t, DropGate)
    case DropGate =>
      Goto(if x.call.Exclusive? then s.(exclusive := None) else s.(readers := s.readers - {t}),
           t, if UsesPool(s, x.call) then PoolReturn else Idle)
    case PoolReturn => Goto(s.(poolLock := Some(t)), t, PoolPush)
    case PoolPush =>
      if x.conn.None? then s else Put(s.(idle := s.idle + [x.conn.value]), t, x.(pc := PoolNotify, conn := None))
    case PoolNotify =>
      var notified := if Wakes(s, pick) then Goto(s, pick, PoolWoken) else s;
      Goto(notified, t, PoolUnlock)
    case PoolUnlock => Goto(s.(poolLock := None), t, Idle)
    case PoolWait => s
  }

  /** Some thread steps (a notification reaches a waiter if there is one), or a waiter wakes up
      spuriously. */
  ghost predicate Step(s: State, s': State) {
    || (exists t, pick :: 0 <= t < |s.threads| && 0 <= pick && Enabled(s, t, false) && s' == Next(s, t, pick)
                          && (s.threads[t].pc.PoolNotify? && !Wakes(s, pick) ==> forall u: nat :: !Wakes(s, u)))
    || (exists t :: 0 <= t < |s.threads| && s.threads[t].pc.PoolWait? && s' == Goto(s, t, PoolWoken))
  }

  ghost predicate Initial(s: State) {
    && (forall t :: 0 <= t < |s.threads| ==> s.threads[t].pc.Idle? && s.threads[t].conn.None?)
    && s.all == multiset(s.idle) && (forall c :: s.all[c] <= 1)
    && (s.pooled ==> s.idle != [])
    && s.poolLock.None? && s.readers == {} && s.exclusive.None? && s.writer.None?
  }

  /* ---------- Counting over threads ---------- */

  function One(x: Thread): multiset<nat> {
    if x.conn.Some? then multiset{x.conn.value} else multiset{}
  }

  /** The connections that are checked out. */
  function Held(ts: seq<Thread>): multiset<nat> {
    if ts == [] then multiset{} else One(ts[0]) + Held(ts[1..])
  }

  /** An awake thread that will look at the pool, or a notification about to be sent. */
  predicate Alert(x: Thread) {
    x.pc.PoolWoken? || x.pc.PoolCheck? || x.pc.PoolNotify?
  }

  function Alerts(ts: seq<Thread>): nat {
    if ts == [] then 0 else (if Alert(ts[0]) then 1 else 0) + Alerts(ts[1..])
  }

  lemma Exchange(a: multiset<nat>, b: multiset<nat>, c: multiset<nat>, d: multiset<nat>, e: multiset<nat>)
    requires b + c == d + e
    ensures a + b + c == a + d + e
  {
    assert a + b + c == a + (b + c);
    assert a + d + e == a + (d + e);
  }

  lemma {:induction false} HeldUpdate(ts: seq<Thread>, t: nat, x: Thread)
    requires t < |ts|
    ensures Held(ts[t := x]) + One(ts[t]) == Held(ts) + One(x)
  {
    if t > 0 {
      var rest := ts[1..][t - 1 := x];
      assert ts[t := x][1..] == rest;
      HeldUpdate(ts[1..], t - 1, x);
      assert Held(ts[t := x]) == One(ts[0]) + Held(rest);
      Exchange(One(ts[0]), Held(rest), One(ts[t]), Held(ts[1..]), One(x));
    } else {
      assert ts[0 := x][1..] == ts[1..];
      Exchange(multiset{}, One(x) + Held(ts[1..]), One(ts[0]), One(ts[0]) + Held(ts[1..]), One(x));
    }
  }

  lemma Cancel(a: multiset<nat>, b: multiset<nat>, x: multiset<nat>)
    requires a + x == b + x
    ensures a == b
  {
    assert a == (a + x) - x && b == (b + x) - x;
  }

  lemma HeldSame(ts: seq<Thread>, t: nat, x: Thread)
    requires t < |ts| && x.conn == ts[t].conn
    ensures Held(ts[t := x]) == Held(ts)
  {
    HeldUpdate(ts, t, x);
    Cancel(Held(ts[t := x]), Held(ts), One(x));
  }

  lemma HeldTake(ts: seq<Thread>, t: nat, x: Thread, c: nat)
    requires t < |ts| && ts[t].conn.None? && x.conn == Some(c)
    ensures Held(ts[t := x]) == Held(ts) + multiset{c}
  {
    HeldUpdate(ts, t, x);
    assert Held(ts[t := x]) + multiset{} == Held(ts[t := x]);
  }

  lemma HeldGive(ts: seq<Thread>, t: nat, x: Thread, c: nat)
    requires t < |ts| && ts[t].conn == Some(c) && x.conn.None?
    ensures Held(ts[t := x]) + multiset{c} == Held(ts)
  {
    HeldUpdate(ts, t, x);
    assert Held(ts) + multiset{} == Held(ts);
  }

  lemma {:induction false} AlertsUpdate(ts: seq<Thread>, t: nat, x: Thread)
    requires t < |ts|
    ensures Alerts(ts[t := x]) + (if Alert(ts[t]) then 1 else 0) == Alerts(ts) + (if Alert(x) then 1 else 0)
  {
    if t > 0 {
      assert ts[t := x][1..] == ts[1..][t - 1 := x];
      AlertsUpdate(ts[1..], t - 1, x);
    } else {
      assert ts[0 := x][1..] == ts[1..];
    }
  }

  /** Two threads with one connection would make it count twice. */
  lemma {:induction false} HeldCounts(ts: seq<Thread>, i: nat, c: nat)
    requires i < |ts| && ts[i].conn == Some(c)
    ensures Held(ts)[c] >= 1
    ensures forall j :: i < j < |ts| && ts[j].conn == Some(c) ==> Held(ts)[c] >= 2
  {
    if i > 0 {
      HeldCounts(ts[1..], i - 1, c);
      forall j | i < j < |ts| && ts[j].conn == Some(c) ensures Held(ts)[c] >= 2 {
        assert ts[1..][j - 1].conn == Some(c);
      }
    } else {
      forall j | i < j < |ts| && ts[j].conn == Some(c) ensures Held(ts)[c] >= 2 {
        HeldCounts(ts[1..], j - 1, c);
      }
    }
  }

  lemma {:induction false} NobodyHolds(ts: seq<Thread>)
    requires forall i :: 0 <= i < |ts| ==> ts[i].conn.None?
    ensures Held(ts) == multiset{}
  {
    if ts != [] { NobodyHolds(ts[1..]); }
  }

  lemma {:induction false} NobodyAlert(ts: seq<Thread>)
    requires forall i :: 0 <= i < |ts| ==> !Alert(ts[i])
    ensures Alerts(ts) == 0
  {
    if ts != [] { NobodyAlert(ts[1..]); }
  }

  /* ---------- The invariant ---------- */

  predicate InPool(pc: Pc) {
    pc.PoolCheck? || pc.PoolPush? || pc.PoolNotify? || pc.PoolUnlock?
  }

  predicate AtGate(pc: Pc) {
    pc.WantWriter? || pc.Working? || pc.DropWriter? || pc.DropGate?
  }

  predicate Poolish(pc: Pc) {
    InPool(pc) || pc.PoolLock? || pc.PoolWait? || pc.PoolWoken? || pc.PoolReturn?
  }

  /** What thread `t`'s position says about the locks it holds. */
  predicate ThreadOk(s: State, t: nat)
    requires t < |s.threads|
  {
    var x := s.threads[t];
    && (s.poolLock == Some(t) <==> InPool(x.pc))
    && (t in s.readers <==> AtGate(x.pc) && !x.call.Exclusive?)
    && (s.exclusive == Some(t) <==> AtGate(x.pc) && x.call.Exclusive?)
    && (s.writer == Some(t) <==> x.pc.DropWriter? || (x.pc.Working? && UsesWriter(s, x.call)))
    && (x.conn.Some? <==> UsesPool(s, x.call)
                          && (x.pc.WantRead? || x.pc.Working? || x.pc.DropGate? || x.pc.PoolReturn? || x.pc.PoolPush?))
    && (Poolish(x.pc) ==> UsesPool(s, x.call))
    && (x.pc.WantWriter? || x.pc.DropWriter? ==> UsesWriter(s, x.call))
    && (x.pc.WantRead? ==> !x.call.Exclusive?)
    && (x.pc.WantWrite? ==> x.call.Exclusive?)
  }

  predicate ThreadsOk(s: State) {
    && (forall t :: 0 <= t < |s.threads| ==> ThreadOk(s, t))
    && (s.poolLock.Some? ==> s.poolLock.value < |s.threads|)
    && (forall t :: t in s.readers ==> t < |s.threads|)
    && (s.exclusive.Some? ==> s.exclusive.value < |s.threads| && s.readers == {})
    && (s.writer.Some? ==> s.writer.value < |s.threads|)
  }

  ghost predicate SomeWaiter(s: State) {
    exists t: nat :: Wakes(s, t)
  }

  /** Conservation, and no lost wakeup: while a waiter sleeps, every idle connection has an awake
      taker or a notification on its way. */
  ghost predicate PoolOk(s: State) {
    && multiset(s.idle) + Held(s.threads) == s.all
    && (forall c :: s.all[c] <= 1)
    && (s.pooled ==> |s.all| > 0)
    && (SomeWaiter(s) ==> |s.idle| <= Alerts(s.threads))
  }

  ghost predicate Inv(s: State) {
    ThreadsOk(s) && PoolOk(s)
  }

  lemma InitialInv(s: State)
    requires Initial(s)
    ensures Inv(s)
  {
    NobodyHolds(s.threads);
    assert multiset(s.idle) + multiset{} == multiset(s.idle);
    assert |multiset(s.idle)| == |s.idle|;
  }

  predicate SlotFrame(before: Option<nat>, after: Option<nat>, t: nat) {
    after == before || ((before.None? || before.value == t) && (after.None? || after.value == t))
  }

  /** The locks change at most with respect to thread `t`. */
  predicate LockFrame(s: State, s': State, t: nat) {
    && s'.pooled == s.pooled && |s'.threads| == |s.threads|
    && SlotFrame(s.poolLock, s'.poolLock, t)
    && SlotFrame(s.exclusive, s'.exclusive, t)
    && SlotFrame(s.writer, s'.writer, t)
    && s'.readers - {t} == s.readers - {t}
  }

  lemma OthersOk(s: State, s': State, t: nat, u: nat)
    requires LockFrame(s, s', t) && u < |s.threads| && u != t
    requires s'.threads[u] == s.threads[u] && ThreadOk(s, u)
    ensures ThreadOk(s', u)
  {
    assert u in s.readers <==> u in s.readers - {t};
    assert u in s'.readers <==> u in s'.readers - {t};
  }

  /** What a step must establish: the stepping thread is consistent, the locks of the others are
      as they were, and the gate's exclusivity is respected. */
  predicate StepOk(s: State, s': State, t: nat)
    requires t < |s.threads|
  {
    && LockFrame(s, s', t) && ThreadOk(s', t)
    && (s'.exclusive.Some? ==> s'.readers == {})
  }

  lemma GateStepOk(s: State, t: nat, pick: nat)
    requires ThreadsOk(s) && t < |s.threads| && Enabled(s, t, false)
    requires s.threads[t].pc.WantRead? || s.threads[t].pc.WantWrite? || s.threads[t].pc.DropGate?
    ensures StepOk(s, Next(s, t, pick), t)
    ensures forall u :: 0 <= u < |s.threads| && u != t ==> Next(s, t, pick).threads[u] == s.threads[u]
  {
    assert ThreadOk(s, t);
  }

  lemma OwnStepOk(s: State, t: nat, pick: nat)
    requires ThreadsOk(s) && t < |s.threads| && Enabled(s, t, false)
    requires s.threads[t].pc.Idle? || s.threads[t].pc.Working?
    ensures StepOk(s, Next(s, t, pick), t)
    ensures forall u :: 0 <= u < |s.threads| && u != t ==> Next(s, t, pick).threads[u] == s.threads[u]
  {
    assert ThreadOk(s, t);
  }

  lemma WriterStepOk(s: State, t: nat, pick: nat)
    requires ThreadsOk(s) && t < |s.threads| && Enabled(s, t, false)
    requires s.threads[t].pc.WantWriter? || s.threads[t].pc.DropWriter?
    ensures StepOk(s, Next(s, t, pick), t)
    ensures forall u :: 0 <= u < |s.threads| && u != t ==> Next(s, t, pick).threads[u] == s.threads[u]
  {
    assert ThreadOk(s, t);
  }

  lemma PoolStepOk(s: State, t: nat, pick: nat)
    requires ThreadsOk(s) && t < |s.threads| && Enabled(s, t, false)
    requires Poolish(s.threads[t].pc) && !s.threads[t].pc.PoolNotify?
    ensures StepOk(s, Next(s, t, pick), t)
    ensures forall u :: 0 <= u < |s.threads| && u != t ==> Next(s, t, pick).threads[u] == s.threads[u]
  {
    assert ThreadOk(s, t);
  }

  lemma NotifyOk(s: State, t: nat, pick: nat)
    requires ThreadsOk(s) && t < |s.threads| && s.threads[t].pc.PoolNotify?
    ensures ThreadsOk(Next(s, t, pick))
  {
    assert ThreadOk(s, t);
    var s' := Next(s, t, pick);
    forall u | 0 <= u < |s.threads| ensures ThreadOk(s', u) {
      assert ThreadOk(s, u);
    }
  }

  /** Thread `t`'s own step keeps every thread's position and its locks in agreement. */
  lemma NextThreadsOk(s: State, t: nat, pick: nat)
    requires ThreadsOk(s) && t < |s.threads| && Enabled(s, t, false)
    ensures ThreadsOk(Next(s, t, pick))
  {
    var pc, s' := s.threads[t].pc, Next(s, t, pick);
    if pc.PoolNotify? {
      NotifyOk(s, t, pick);
    } else {
      if Poolish(pc) {
        PoolStepOk(s, t, pick);
      } else if pc.WantRead? || pc.WantWrite? || pc.DropGate? {
        GateStepOk(s, t, pick);
      } else if pc.Idle? || pc.Working? {
        OwnStepOk(s, t, pick);
      } else {
        WriterStepOk(s, t, pick);
      }
      StepOkSuffices(s, s', t);
    }
  }

  lemma StepOkSuffices(s: State, s': State, t: nat)
    requires ThreadsOk(s) && t < |s.threads| && StepOk(s, s', t)
    requires forall u :: 0 <= u < |s.threads| && u != t ==> s'.threads[u] == s.threads[u]
    ensures ThreadsOk(s')
  {
    forall u | 0 <= u < |s'.threads| ensures ThreadOk(s', u) {
      if u != t {
        assert ThreadOk(s, u);
        OthersOk(s, s', t, u);
      }
    }
    forall u | u in s'.readers ensures u < |s'.threads| {
      if u != t { assert u in s'.readers - {t}; }
    }
  }

  /* ---------- The pool ---------- */

  /** No thread but `t` changes, and `t` does not fall asleep, so no waiter appears. */
  lemma NoNewWaiter(s: State, s': State, t: nat)
    requires t < |s.threads| == |s'.threads| && s'.threads == s.threads[t := s'.threads[t]]
    requires !s'.threads[t].pc.PoolWait?
    ensures SomeWaiter(s') ==> SomeWaiter(s)
  {
    if SomeWaiter(s') {
      var u: nat :| Wakes(s', u);
      assert Wakes(s, u);
    }
  }

  /** A step that neither moves a connection nor lowers the number of alert threads, and makes
      no waiter. */
  lemma QuietStep(s: State, s': State, t: nat)
    requires PoolOk(s) && t < |s.threads|
    requires s'.all == s.all && s'.idle == s.idle && s'.pooled == s.pooled
    requires |s'.threads| == |s.threads| && s'.threads == s.threads[t := s'.threads[t]]
    requires s'.threads[t].conn == s.threads[t].conn && !s'.threads[t].pc.PoolWait?
    requires Alert(s.threads[t]) ==> Alert(s'.threads[t])
    ensures PoolOk(s')
  {
    HeldSame(s.threads, t, s'.threads[t]);
    AlertsUpdate(s.threads, t, s'.threads[t]);
    NoNewWaiter(s, s', t);
  }

  lemma SpuriousOk(s: State, t: nat)
    requires Inv(s) && t < |s.threads| && s.threads[t].pc.PoolWait?
    ensures Inv(Goto(s, t, PoolWoken))
  {
    assert ThreadOk(s, t);
    StepOkSuffices(s, Goto(s, t, PoolWoken), t);
    QuietStep(s, Goto(s, t, PoolWoken), t);
  }

  lemma CheckingHoldsNone(s: State, t: nat)
    requires ThreadsOk(s) && t < |s.threads| && s.threads[t].pc.PoolCheck?
    ensures s.threads[t].conn.None?
  {
    assert ThreadOk(s, t);
  }

  lemma PopStep(s: State, t: nat, pick: nat)
    requires Inv(s) && t < |s.threads| && s.threads[t].pc.PoolCheck? && s.idle != []
    ensures PoolOk(Next(s, t, pick))
  {
    hide ThreadsOk, Held, Alerts;
    CheckingHoldsNone(s, t);
    var s', conn := Next(s, t, pick), s.idle[|s.idle| - 1];
    assert s'.threads == s.threads[t := s'.threads[t]];
    HeldTake(s.threads, t, s'.threads[t], conn);
    AlertsUpdate(s.threads, t, s'.threads[t]);
    assert s.idle == s'.idle + [conn];
    assert multiset(s.idle) + Held(s.threads) == multiset(s'.idle) + (Held(s.threads) + multiset{conn});
    NoNewWaiter(s, s', t);
  }

  lemma SleepStep(s: State, t: nat, pick: nat)
    requires Inv(s) && t < |s.threads| && s.threads[t].pc.PoolCheck? && s.idle == []
    ensures PoolOk(Next(s, t, pick))
  {
    hide ThreadsOk;
    HeldSame(s.threads, t, s.threads[t].(pc := PoolWait));
  }

  lemma PushStep(s: State, t: nat, pick: nat)
    requires Inv(s) && t < |s.threads| && s.threads[t].pc.PoolPush?
    ensures PoolOk(Next(s, t, pick))
  {
    assert ThreadOk(s, t);
    var s', conn := Next(s, t, pick), s.threads[t].conn.value;
    assert s'.threads == s.threads[t := s'.threads[t]];
    HeldGive(s.threads, t, s'.threads[t], conn);
    AlertsUpdate(s.threads, t, s'.threads[t]);
    assert multiset(s'.idle) + Held(s'.threads) == multiset(s.idle) + (Held(s'.threads) + multiset{conn});
    NoNewWaiter(s, s', t);
  }

  lemma WakeStep(s: State, t: nat, pick: nat)
    requires PoolOk(s) && t < |s.threads| && s.threads[t].pc.PoolNotify? && Wakes(s, pick)
    ensures PoolOk(Next(s, t, pick))
  {
    hide Held, Alerts;
    var x, y := s.threads[t].(pc := PoolUnlock), s.threads[pick].(pc := PoolWoken);
    HeldSame(s.threads, pick, y);
    AlertsUpdate(s.threads, pick, y);
    HeldSame(s.threads[pick := y], t, x);
    AlertsUpdate(s.threads[pick := y], t, x);
    assert SomeWaiter(s);
  }

  lemma NotifyStep(s: State, t: nat, pick: nat)
    requires Inv(s) && t < |s.threads| && s.threads[t].pc.PoolNotify?
    requires Wakes(s, pick) || !SomeWaiter(s)
    ensures PoolOk(Next(s, t, pick))
  {
    hide Held, Alerts, ThreadsOk;
    if Wakes(s, pick) {
      WakeStep(s, t, pick);
    } else {
      var s' := Next(s, t, pick);
      var x := s.threads[t].(pc := PoolUnlock);
      assert s'.threads == s.threads[t := x];
      HeldSame(s.threads, t, x);
      NoNewWaiter(s, s', t);
    }
  }

  /** Between the pool's own steps no connection moves and nobody falls asleep or stops being
      alert. */
  lemma QuietShape(s: State, t: nat, pick: nat)
    requires t < |s.threads| && Enabled(s, t, false) && ThreadOk(s, t)
    requires !s.threads[t].pc.PoolCheck? && !s.threads[t].pc.PoolPush? && !s.threads[t].pc.PoolNotify?
    ensures var s' := Next(s, t, pick);
            && s'.all == s.all && s'.idle == s.idle && s'.pooled == s.pooled
            && |s'.threads| == |s.threads| && s'.threads == s.threads[t := s'.threads[t]]
            && s'.threads[t].conn == s.threads[t].conn && !s'.threads[t].pc.PoolWait?
            && (Alert(s.threads[t]) ==> Alert(s'.threads[t]))
  {
  }

  lemma QuietNext(s: State, t: nat, pick: nat)
    requires Inv(s) && t < |s.threads| && Enabled(s, t, false)
    requires !s.threads[t].pc.PoolCheck? && !s.threads[t].pc.PoolPush? && !s.threads[t].pc.PoolNotify?
    ensures PoolOk(Next(s, t, pick))
  {
    hide PoolOk, ThreadOk, Enabled, Next;
    QuietShape(s, t, pick);
    QuietStep(s, Next(s, t, pick), t);
  }

  /** Every step of every thread keeps the invariant. */
  lemma NextInv(s: State, t: nat, pick: nat)
    requires Inv(s) && t < |s.threads| && Enabled(s, t, false)
    requires s.threads[t].pc.PoolNotify? ==> Wakes(s, pick) || !SomeWaiter(s)
    ensures Inv(Next(s, t, pick))
  {
    NextThreadsOk(s, t, pick);
    var pc := s.threads[t].pc;
    if pc.PoolCheck? && s.idle != [] {
      PopStep(s, t, pick);
    } else if pc.PoolCheck? {
      SleepStep(s, t, pick);
    } else if pc.PoolPush? {
      PushStep(s, t, pick);
    } else if pc.PoolNotify? {
      NotifyStep(s, t, pick);
    } else {
      QuietNext(s, t, pick);
    }
  }

  lemma StepInv(s: State, s': State)
    requires Inv(s) && Step(s, s')
    ensures Inv(s')
  {
    if t :| 0 <= t < |s.threads| && s.threads[t].pc.PoolWait? && s' == Goto(s, t, PoolWoken) {
      SpuriousOk(s, t);
    } else {
      var t, pick :| 0 <= t < |s.threads| && 0 <= pick && Enabled(s, t, false) && s' == Next(s, t, pick)
                     && (s.threads[t].pc.PoolNotify? && !Wakes(s, pick) ==> forall u: nat :: !Wakes(s, u));
      NextInv(s, t, pick);
    }
  }

  ghost predicate StepTo(run: seq<State>, i: nat)
    requires 0 < i < |run|
  {
    Step(run[i - 1], run[i])
  }

  /** A run of the protocol. */
  ghost predicate IsRun(run: seq<State>) {
    run != [] && Initial(run[0]) && forall i :: 0 < i < |run| ==> StepTo(run, i)
  }

  lemma {:induction false} RunInv(run: seq<State>, i: nat)
    requires IsRun(run) && i < |run|
    ensures Inv(run[i])
  {
    hide Step, Inv, Initial;
    if i == 0 {
      InitialInv(run[0]);
    } else {
      RunInv(run, i - 1);
      assert StepTo(run, i);
      StepInv(run[i - 1], run[i]);
    }
  }

  /* ---------- What every reachable state satisfies ---------- */

  predicate Holds(s: State, t: nat) {
    t in s.readers || s.exclusive == Some(t)
  }

  /** Gate and writer discipline: the writer's holder also holds the gate, exclusive access
      excludes every other accessor, and nobody asks for the gate while holding it. */
  lemma LockSafety(run: seq<State>, i: nat, t: nat, u: nat)
    requires IsRun(run) && i < |run| && t < |run[i].threads| && u < |run[i].threads|
    ensures run[i].writer == Some(t) ==> Holds(run[i], t)
    ensures run[i].exclusive == Some(t) && u != t ==>
              !Holds(run[i], u) && run[i].writer != Some(u) && !run[i].threads[u].pc.Working?
    ensures run[i].threads[t].pc.WantRead? || run[i].threads[t].pc.WantWrite? ==> !Holds(run[i], t)
    ensures run[i].threads[t].pc.Working? ==> Holds(run[i], t)
  {
    RunInv(run, i);
    assert ThreadOk(run[i], t) && ThreadOk(run[i], u);
  }

  function CheckedOut(ts: seq<Thread>): nat {
    if ts == [] then 0 else (if ts[0].conn.Some? then 1 else 0) + CheckedOut(ts[1..])
  }

  lemma {:induction false} HeldSize(ts: seq<Thread>)
    ensures |Held(ts)| == CheckedOut(ts)
  {
    if ts != [] { HeldSize(ts[1..]); }
  }

  /** Conservation: idle and checked-out connections always add up to the initial pool, and no
      connection is in two places. */
  lemma PoolConservation(run: seq<State>, i: nat, t: nat, u: nat)
    requires IsRun(run) && i < |run| && t < |run[i].threads| && u < |run[i].threads|
    ensures |run[i].idle| + CheckedOut(run[i].threads) == |run[i].all|
    ensures t != u && run[i].threads[t].conn.Some? ==> run[i].threads[t].conn != run[i].threads[u].conn
    ensures run[i].threads[t].conn.Some? ==> run[i].threads[t].conn.value !in run[i].idle
  {
    RunInv(run, i);
    var s := run[i];
    HeldSize(s.threads);
    assert |multiset(s.idle) + Held(s.threads)| == |multiset(s.idle)| + |Held(s.threads)|;
    if s.threads[t].conn.Some? {
      var c := s.threads[t].conn.value;
      HeldCounts(s.threads, t, c);
      if s.threads[u].conn == Some(c) { HeldCounts(s.threads, u, c); }
      assert s.all[c] == multiset(s.idle)[c] + Held(s.threads)[c];
      assert c in s.idle <==> c in multiset(s.idle);
    }
  }

  function Woken(ts: seq<Thread>): nat {
    if ts == [] then 0 else (if ts[0].pc.PoolWoken? then 1 else 0) + Woken(ts[1..])
  }

  lemma {:induction false} AlertsAreWoken(ts: seq<Thread>)
    requires forall i :: 0 <= i < |ts| ==> !InPool(ts[i].pc)
    ensures Alerts(ts) == Woken(ts)
  {
    if ts != [] { AlertsAreWoken(ts[1..]); }
  }

  /** No lost wakeup: whenever the pool mutex is free and somebody sleeps, the idle connections
      are no more than the awake threads about to take one. */
  lemma NoLostWakeup(run: seq<State>, i: nat)
    requires IsRun(run) && i < |run| && run[i].poolLock.None? && SomeWaiter(run[i])
    ensures |run[i].idle| <= Woken(run[i].threads)
  {
    RunInv(run, i);
    forall t | 0 <= t < |run[i].threads| ensures !InPool(run[i].threads[t].pc) {
      assert ThreadOk(run[i], t);
    }
    AlertsAreWoken(run[i].threads);
  }

  lemma HolderPosition(s: State, t: nat)
    requires ThreadsOk(s) && Holds(s, t)
    ensures t < |s.threads| && AtGate(s.threads[t].pc)
  {
    assert ThreadOk(s, t);
  }

  /** Whoever holds a mutex can go on. */
  lemma MutexHoldersStep(s: State)
    requires ThreadsOk(s)
    ensures s.poolLock.Some? ==> Enabled(s, s.poolLock.value, true)
    ensures s.writer.Some? ==> Enabled(s, s.writer.value, true)
  {
    if s.poolLock.Some? { assert ThreadOk(s, s.poolLock.value); }
    if s.writer.Some? { assert ThreadOk(s, s.writer.value); }
  }

  /** With nobody able to step, no thread is anywhere but finished or asleep in the pool. */
  lemma StuckThreads(s: State)
    requires ThreadsOk(s)
    requires forall t :: 0 <= t < |s.threads| ==> !Enabled(s, t, true)
    ensures forall t :: 0 <= t < |s.threads| ==> Finished(s.threads[t]) || s.threads[t].pc.PoolWait?
  {
    forall t | 0 <= t < |s.threads|
      ensures !AtGate(s.threads[t].pc) && (Poolish(s.threads[t].pc) ==> s.threads[t].pc.PoolWait?)
    {
      assert ThreadOk(s, t) && !Enabled(s, t, true);
      MutexHoldersStep(s);
    }
    if s.exclusive.Some? { HolderPosition(s, s.exclusive.value); }
    if t :| t in s.readers { HolderPosition(s, t); }
    forall t | 0 <= t < |s.threads| ensures !s.threads[t].pc.WantWrite? {
      assert !Enabled(s, t, true);
    }
    forall t | 0 <= t < |s.threads| ensures Finished(s.threads[t]) || s.threads[t].pc.PoolWait? {
      assert !Enabled(s, t, true);
    }
  }

  /** A pool whose connections are all idle and that nobody is alert to has no sleeper. */
  lemma NoSleeperByIdlePool(s: State)
    requires Inv(s)
    requires forall t :: 0 <= t < |s.threads| ==> s.threads[t].conn.None? && !Alert(s.threads[t])
    ensures !SomeWaiter(s)
  {
    NobodyAlert(s.threads);
    NobodyHolds(s.threads);
    assert multiset(s.idle) + multiset{} == multiset(s.idle);
    assert |multiset(s.idle)| == |s.idle|;
    if t: nat :| Wakes(s, t) { assert ThreadOk(s, t); }
  }

  /** Deadlock freedom: while some thread is unfinished, some thread can step without waiting for
      a spurious wakeup, even if waiting writers keep new readers out. */
  lemma DeadlockFreedom(run: seq<State>, i: nat, unfinished: nat)
    requires IsRun(run) && i < |run| && unfinished < |run[i].threads| && !Finished(run[i].threads[unfinished])
    ensures exists t :: 0 <= t < |run[i].threads| && Enabled(run[i], t, true)
  {
    var s := run[i];
    RunInv(run, i);
    if forall t :: 0 <= t < |s.threads| ==> !Enabled(s, t, true) {
      StuckThreads(s);
      forall t | 0 <= t < |s.threads| ensures s.threads[t].conn.None? && !Alert(s.threads[t]) {
        assert ThreadOk(s, t);
      }
      NoSleeperByIdlePool(s);
      assert s.threads[unfinished].pc.PoolWait? ==> Wakes(s, unfinished);
    }
  }

  /** The strict policy only restricts: a step it allows is a step of the protocol. */
  lemma StrictStepIsStep(s: State, t: nat)
    requires t < |s.threads| && Enabled(s, t, true)
    ensures exists s' :: Step(s, s')
  {
    if w: nat :| Wakes(s, w) {
      assert Step(s, Next(s, t, w));
    } else {
      assert Step(s, Next(s, t, 0));
    }
  }

  /* ---------- Every run ends ---------- */

  /** How far a position is from the end of its call.  A notification moves its receiver up by less
      than its sender comes down. */
  function Distance(pc: Pc): nat {
    match pc
    case Idle => 0
    case PoolUnlock => 1
    case PoolNotify => 4
    case PoolPush => 5
    case PoolReturn => 6
    case DropGate => 7
    case DropWriter => 8
    case Working => 9
    case WantWriter => 10
    case WantRead => 11
    case WantWrite => 11
    case PoolWait => 12
    case PoolCheck => 13
    case PoolLock => 14
    case PoolWoken => 14
  }

  function Cost(c: Call): nat {
    15 + if c.Transact? then |c.inner| else 0
  }

  function Costs(calls: seq<Call>): nat {
    if calls == [] then 0 else Cost(calls[0]) + Costs(calls[1..])
  }

  /** The steps a thread can still cause. */
  function Work(x: Thread): nat {
    Distance(x.pc) + (if x.pc.Idle? then 0 else |x.inner|) + Costs(x.todo)
  }

  function TotalWork(ts: seq<Thread>): nat {
    if ts == [] then 0 else Work(ts[0]) + TotalWork(ts[1..])
  }

  lemma {:induction false} TotalWorkUpdate(ts: seq<Thread>, t: nat, x: Thread)
    requires t < |ts|
    ensures TotalWork(ts[t := x]) + Work(ts[t]) == TotalWork(ts) + Work(x)
  {
    if t > 0 {
      assert ts[t := x][1..] == ts[1..][t - 1 := x];
      TotalWorkUpdate(ts[1..], t - 1, x);
    } else {
      assert ts[0 := x][1..] == ts[1..];
    }
  }

  lemma PoolWorkShrinks(s: State, t: nat, pick: nat)
    requires t < |s.threads| && Enabled(s, t, false) && ThreadOk(s, t)
    requires Poolish(s.threads[t].pc) && !s.threads[t].pc.PoolNotify?
    ensures var s' := Next(s, t, pick);
            && |s'.threads| == |s.threads| && s'.threads == s.threads[t := s'.threads[t]]
            && Work(s'.threads[t]) < Work(s.threads[t])
  {
  }

  /** A step outside the pool brings its thread closer to its end. */
  lemma OwnWorkShrinks(s: State, t: nat, pick: nat)
    requires t < |s.threads| && Enabled(s, t, false) && ThreadOk(s, t) && !Poolish(s.threads[t].pc)
    ensures var s' := Next(s, t, pick);
            && |s'.threads| == |s.threads| && s'.threads == s.threads[t := s'.threads[t]]
            && Work(s'.threads[t]) < Work(s.threads[t])
  {
  }

  lemma NotifyWorkShrinks(s: State, t: nat, pick: nat)
    requires t < |s.threads| && s.threads[t].pc.PoolNotify?
    ensures TotalWork(Next(s, t, pick).threads) < TotalWork(s.threads)
  {
    hide TotalWork;
    var x := s.threads[t].(pc := PoolUnlock);
    if Wakes(s, pick) {
      var y := s.threads[pick].(pc := PoolWoken);
      TotalWorkUpdate(s.threads, pick, y);
      TotalWorkUpdate(s.threads[pick := y], t, x);
      assert Next(s, t, pick).threads == s.threads[pick := y][t := x];
    } else {
      TotalWorkUpdate(s.threads, t, x);
    }
  }

  /** Every step of a thread leaves less work in all. */
  lemma WorkShrinks(s: State, t: nat, pick: nat)
    requires Inv(s) && t < |s.threads| && Enabled(s, t, false)
    ensures TotalWork(Next(s, t, pick).threads) < TotalWork(s.threads)
  {
    hide TotalWork, Work, Next, Enabled, ThreadOk, PoolOk;
    if s.threads[t].pc.PoolNotify? {
      NotifyWorkShrinks(s, t, pick);
    } else {
      assert ThreadOk(s, t);
      if Poolish(s.threads[t].pc) {
        PoolWorkShrinks(s, t, pick);
      } else {
        OwnWorkShrinks(s, t, pick);
      }
      TotalWorkUpdate(s.threads, t, Next(s, t, pick).threads[t]);
    }
  }

  lemma SpuriousWork(s: State, t: nat)
    requires t < |s.threads| && s.threads[t].pc.PoolWait?
    ensures TotalWork(Goto(s, t, PoolWoken).threads) == TotalWork(s.threads) + 2
  {
    TotalWorkUpdate(s.threads, t, s.threads[t].(pc := PoolWoken));
  }

  /** A step that is only a spurious wakeup: no thread's own step leads there. */
  ghost predicate IsSpurious(s: State, s': State) {
    forall t, pick :: 0 <= t < |s.threads| && 0 <= pick && Enabled(s, t, false) ==> s' != Next(s, t, pick)
  }

  ghost function SpuriousWakeups(run: seq<State>): nat {
    if |run| < 2 then 0
    else SpuriousWakeups(run[..|run| - 1]) + if IsSpurious(run[|run| - 2], run[|run| - 1]) then 1 else 0
  }

  lemma StepWork(s: State, s': State)
    requires Inv(s) && Step(s, s')
    ensures TotalWork(s'.threads) + 1 <= TotalWork(s.threads) + if IsSpurious(s, s') then 3 else 0
  {
    hide TotalWork, Inv, Next, Enabled;
    if IsSpurious(s, s') {
      var t :| 0 <= t < |s.threads| && s.threads[t].pc.PoolWait? && s' == Goto(s, t, PoolWoken);
      SpuriousWork(s, t);
    } else {
      var t, pick :| 0 <= t < |s.threads| && 0 <= pick && Enabled(s, t, false) && s' == Next(s, t, pick);
      WorkShrinks(s, t, pick);
    }
  }

  lemma RunPrefix(run: seq<State>)
    requires IsRun(run) && |run| >= 2
    ensures IsRun(run[..|run| - 1])
  {
    hide Step, Initial;
    var front := run[..|run| - 1];
    forall i | 0 < i < |front| ensures StepTo(front, i) {
      assert StepTo(run, i);
    }
  }

  /** Runs are bounded: a run has no more steps than the work its first state holds, three more for
      each spurious wakeup. */
  lemma {:induction false} RunsAreBounded(run: seq<State>)
    requires IsRun(run)
    ensures |run| - 1 + TotalWork(run[|run| - 1].threads) <= TotalWork(run[0].threads) + 3 * SpuriousWakeups(run)
  {
    hide Step, Initial, TotalWork, Inv, IsSpurious;
    if |run| >= 2 {
      var n := |run| - 1;
      RunPrefix(run);
      RunsAreBounded(run[..n]);
      RunInv(run, n - 1);
      assert StepTo(run, n);
      StepWork(run[n - 1], run[n]);
    }
  }

  predicate Stopped(s: State) {
    forall t :: 0 <= t < |s.threads| ==> !Enabled(s, t, true)
  }

  predicate AllFinished(s: State) {
    forall t :: 0 <= t < |s.threads| ==> Finished(s.threads[t])
  }

  /** A run that no thread can continue has finished every call. */
  lemma StoppedRunIsFinished(run: seq<State>)
    requires IsRun(run) && Stopped(run[|run| - 1])
    ensures AllFinished(run[|run| - 1])
  {
    var s := run[|run| - 1];
    if t :| 0 <= t < |s.threads| && !Finished(s.threads[t]) {
      DeadlockFreedom(run, |run| - 1, t);
    }
  }
}
