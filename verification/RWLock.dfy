/** The hand-written readers/writer lock of keyhub/runtime.py and the vault it protects, as a machine
    whose steps are the statements of the threads.  A thread runs encrypt/decrypt, lock, unlock or
    change_master_password over and over; any thread may take the next step. */
module RWLock {
  import opened Prelude

  type Tid = nat
  type VaultId = nat

  datatype Job = Reading | Locking | Unlocking | Rekeying

  datatype Pc =
    | Finished
    | Start              // about to enter the condition, on the way in
    | Testing            // inside the condition, evaluating the loop guard
    | Asleep             // waiting, not notified, condition released
    | Woken              // notified, about to re-enter the condition
    | Counted            // counted in, still inside the condition
    | Inside             // in the section, vault not read yet
    | Using(v: VaultId)  // in the section, working with the vault it read
    | Wiped(v: VaultId)  // in the section, vault zeroed but not replaced yet
    | Leaving            // section over, about to enter the condition
    | Exiting            // inside the condition, still counted
    | Notifying          // counted out, about to notify
    | Releasing          // about to leave the condition

  datatype State =
    State(readers: int, writers: int, mutex: Option<Tid>, vault: Option<VaultId>, zeroed: set<VaultId>,
          made: nat, pc: map<Tid, Pc>, job: map<Tid, Job>)

  function At(s: State, t: Tid, p: Pc): State {
    s.(pc := s.pc[t := p])
  }

  function WakeAll(s: State): State {
    s.(pc := map t | t in s.pc :: if s.pc[t].Asleep? then Woken else s.pc[t])
  }

  function Count(s: State, reader: bool, d: int): State {
    if reader then s.(readers := s.readers + d) else s.(writers := s.writers + d)
  }

  predicate MustWait(s: State, reader: bool) {
    s.writers > 0 || (!reader && s.readers > 0)
  }

  predicate NotifiesAll(s: State, reader: bool) {
    !reader || s.readers == 0
  }

  /** Thread `t` executes one statement. */
  predicate Step(s: State, t: Tid, s': State) {
    t in s.pc && t in s.job &&
    var reader := s.job[t].Reading?;
    match s.pc[t]
    case Finished => s' == At(s, t, Start).(job := s'.job) && t in s'.job && s'.job == s.job[t := s'.job[t]]
    case Start => s.mutex.None? && s' == At(s, t, Testing).(mutex := Some(t))
    case Testing =>
      if MustWait(s, reader) then s' == At(s, t, Asleep).(mutex := None)
      else s' == Count(At(s, t, Counted), reader, 1)
    case Asleep => false
    case Woken => s.mutex.None? && s' == At(s, t, Testing).(mutex := Some(t))
    case Counted => s' == At(s, t, Inside).(mutex := None)
    case Inside =>
      if s.job[t].Unlocking? then s' == At(s, t, Leaving).(vault := Some(s.made), made := s.made + 1)
      else if s.vault.None? then s' == At(s, t, Leaving)
      else if s.job[t].Locking? then
        s' == At(s, t, Wiped(s.vault.value)).(zeroed := s.zeroed + {s.vault.value})
      else s' == At(s, t, Using(s.vault.value))
    case Using(v) =>
      || s' == s
      || s' == At(s, t, Leaving)
      || (s.job[t].Rekeying? && s' == At(s, t, Wiped(v)).(zeroed := s.zeroed + {v}))
    case Wiped(v) =>
      if s.job[t].Rekeying? then s' == At(s, t, Leaving).(vault := Some(s.made), made := s.made + 1)
      else s' == At(s, t, Leaving).(vault := None)
    case Leaving => s.mutex.None? && s' == At(s, t, Exiting).(mutex := Some(t))
    case Exiting => s' == Count(At(s, t, Notifying), reader, -1)
    case Notifying => s' == At(if NotifiesAll(s, reader) then WakeAll(s) else s, t, Releasing)
    case Releasing => s' == At(s, t, Finished).(mutex := None)
  }

  predicate Init(s: State) {
    && s.readers == s.writers == 0 && s.mutex.None? && s.vault.None? && s.zeroed == {}
    && s.job.Keys == s.pc.Keys
    && forall t :: t in s.pc ==> s.pc[t].Finished?
  }

  // ----- the invariant -----

  predicate HoldsCondition(p: Pc) {
    p.Testing? || p.Counted? || p.Exiting? || p.Notifying? || p.Releasing?
  }

  /** Between being counted in and being counted out. */
  predicate In(p: Pc) {
    p.Counted? || p.Inside? || p.Using? || p.Wiped? || p.Leaving? || p.Exiting?
  }

  function Insiders(s: State, reader: bool): set<Tid> {
    set t | t in s.pc && t in s.job && In(s.pc[t]) && s.job[t].Reading? == reader
  }

  predicate WellFormed(s: State) {
    && s.job.Keys == s.pc.Keys
    && (s.mutex.Some? ==> s.mutex.value in s.pc)
    && forall t :: t in s.pc ==> (HoldsCondition(s.pc[t]) <==> s.mutex == Some(t))
  }

  predicate CountsAgree(s: State) {
    s.readers == |Insiders(s, true)| && s.writers == |Insiders(s, false)|
  }

  predicate Exclusive(s: State) {
    && (forall t, u :: t in Insiders(s, false) && u in Insiders(s, false) ==> t == u)
    && (Insiders(s, false) == {} || Insiders(s, true) == {})
  }

  predicate AboutToNotify(s: State) {
    && s.mutex.Some? && s.mutex.value in s.pc && s.mutex.value in s.job
    && s.pc[s.mutex.value].Notifying?
    && NotifiesAll(s, s.job[s.mutex.value].Reading?)
  }

  predicate NoLostWakeup(s: State) {
    forall t :: t in s.pc && t in s.job && s.pc[t].Asleep? ==> MustWait(s, s.job[t].Reading?) || AboutToNotify(s)
  }

  predicate KnownVaults(s: State) {
    (s.vault.Some? ==> s.vault.value < s.made) && forall v :: v in s.zeroed ==> v < s.made
  }

  /** Whoever works with a vault works with the one in service, and it is not zeroed. */
  predicate UsersSafe(s: State) {
    forall t :: t in s.pc && s.pc[t].Using? ==> s.vault == Some(s.pc[t].v) && s.pc[t].v !in s.zeroed
  }

  predicate WipersExclusive(s: State) {
    forall t :: t in s.pc && s.pc[t].Wiped? ==> t in s.job && !s.job[t].Reading? && s.vault == Some(s.pc[t].v)
  }

  /** A zeroed vault is in service only while the thread that zeroed it is about to replace it. */
  predicate ZeroedIsWiped(s: State) {
    s.vault.Some? && s.vault.value in s.zeroed ==> exists t :: t in s.pc && s.pc[t] == Wiped(s.vault.value)
  }

  predicate VaultSafe(s: State) {
    KnownVaults(s) && UsersSafe(s) && WipersExclusive(s) && ZeroedIsWiped(s)
  }

  predicate Inv(s: State) {
    WellFormed(s) && CountsAgree(s) && Exclusive(s) && NoLostWakeup(s) && VaultSafe(s)
  }

  lemma InitHolds(s: State)
    requires Init(s)
    ensures Inv(s)
  {
    assert Insiders(s, true) == {} && Insiders(s, false) == {};
  }

  // ----- preservation -----

  lemma StepKeepsWellFormed(s: State, t: Tid, s': State)
    requires WellFormed(s) && Step(s, t, s')
    ensures WellFormed(s')
  {
  }

  /** A step moves one thread; to the others it can only bring a notification. */
  lemma StepFrame(s: State, t: Tid, s': State)
    requires WellFormed(s) && Step(s, t, s')
    ensures s'.pc.Keys == s.pc.Keys && s'.job.Keys == s.job.Keys
    ensures forall u :: u in s.pc && u != t ==>
                          s'.job[u] == s.job[u] && (s'.pc[u] == s.pc[u] || (s.pc[u].Asleep? && s'.pc[u].Woken?))
    ensures !s.pc[t].Finished? ==> s'.job == s.job
    ensures In(s'.pc[t]) <==>
            if s.pc[t].Testing? then !MustWait(s, s.job[t].Reading?) else In(s.pc[t]) && !s.pc[t].Exiting?
  {
  }

  /** How the threads inside change with one step. */
  lemma InsidersStep(s: State, t: Tid, s': State, reader: bool)
    requires WellFormed(s) && Step(s, t, s')
    ensures Insiders(s', reader) ==
            if s.job[t].Reading? != reader then Insiders(s, reader)
            else if s.pc[t].Testing? && !MustWait(s, reader) then Insiders(s, reader) + {t}
            else if s.pc[t].Exiting? then Insiders(s, reader) - {t}
            else Insiders(s, reader)
    ensures t in Insiders(s, reader) <==> In(s.pc[t]) && s.job[t].Reading? == reader
  {
    StepFrame(s, t, s');
    forall u | u != t ensures u in Insiders(s', reader) <==> u in Insiders(s, reader) {
      if u in s.pc { assert In(s'.pc[u]) == In(s.pc[u]); }
    }
  }

  /** By how much a step changes the number of readers, or of writers, inside. */
  function Moves(s: State, t: Tid, reader: bool): int
    requires t in s.pc && t in s.job
  {
    if s.job[t].Reading? != reader then 0
    else if s.pc[t].Testing? && !MustWait(s, reader) then 1
    else if s.pc[t].Exiting? then -1
    else 0
  }

  lemma CountersStep(s: State, t: Tid, s': State)
    requires Step(s, t, s')
    ensures s'.readers == s.readers + Moves(s, t, true) && s'.writers == s.writers + Moves(s, t, false)
  {
  }

  lemma InsidersCount(s: State, t: Tid, s': State, reader: bool)
    requires WellFormed(s) && Step(s, t, s')
    ensures |Insiders(s', reader)| == |Insiders(s, reader)| + Moves(s, t, reader)
  {
    InsidersStep(s, t, s', reader);
  }

  lemma StepKeepsCounts(s: State, t: Tid, s': State)
    requires WellFormed(s) && CountsAgree(s) && Step(s, t, s')
    ensures CountsAgree(s')
  {
    CountersStep(s, t, s');
    InsidersCount(s, t, s', true);
    InsidersCount(s, t, s', false);
  }

  lemma StepKeepsExclusive(s: State, t: Tid, s': State)
    requires WellFormed(s) && CountsAgree(s) && Exclusive(s) && Step(s, t, s')
    ensures Exclusive(s')
  {
    InsidersStep(s, t, s', true);
    InsidersStep(s, t, s', false);
    if s.pc[t].Testing? && !MustWait(s, s.job[t].Reading?) {
      assert Insiders(s, false) == {};
    }
  }

  lemma StepKeepsWakeups(s: State, t: Tid, s': State)
    requires WellFormed(s) && CountsAgree(s) && NoLostWakeup(s) && Step(s, t, s')
    ensures NoLostWakeup(s')
  {
    StepFrame(s, t, s');
    forall u | u in s'.pc && u in s'.job && s'.pc[u].Asleep?
      ensures MustWait(s', s'.job[u].Reading?) || AboutToNotify(s')
    {
      if u != t {
        assert s.pc[u].Asleep? && s'.job[u] == s.job[u];
        assert MustWait(s, s.job[u].Reading?) || AboutToNotify(s);
      }
    }
  }

  /** A thread writing in the section is alone in it. */
  lemma WriterAlone(s: State, t: Tid, u: Tid)
    requires WellFormed(s) && Exclusive(s)
    requires t in s.pc && In(s.pc[t]) && !s.job[t].Reading? && u in s.pc && In(s.pc[u])
    ensures u == t
  {
    assert t in Insiders(s, false) && u in Insiders(s, s.job[u].Reading?);
  }

  lemma ReadVaultIsClean(s: State, t: Tid)
    requires WellFormed(s) && Exclusive(s) && VaultSafe(s)
    requires t in s.pc && s.pc[t].Inside? && s.vault.Some?
    ensures s.vault.value !in s.zeroed
  {
    if s.vault.value in s.zeroed {
      var w :| w in s.pc && s.pc[w] == Wiped(s.vault.value);
      WriterAlone(s, w, t);
    }
  }

  lemma StepKeepsUsers(s: State, t: Tid, s': State)
    requires WellFormed(s) && Exclusive(s) && VaultSafe(s) && Step(s, t, s')
    ensures UsersSafe(s')
  {
    StepFrame(s, t, s');
    if s.pc[t].Inside? && s.vault.Some? { ReadVaultIsClean(s, t); }
    forall u | u in s'.pc && s'.pc[u].Using?
      ensures s'.vault == Some(s'.pc[u].v) && s'.pc[u].v !in s'.zeroed
    {
      if u != t && In(s.pc[t]) && !s.job[t].Reading? { WriterAlone(s, t, u); }
    }
  }

  lemma StepKeepsWipers(s: State, t: Tid, s': State)
    requires WellFormed(s) && Exclusive(s) && VaultSafe(s) && Step(s, t, s')
    ensures WipersExclusive(s')
  {
    StepFrame(s, t, s');
    forall u | u in s'.pc && s'.pc[u].Wiped?
      ensures u in s'.job && !s'.job[u].Reading? && s'.vault == Some(s'.pc[u].v)
    {
      if u != t && In(s.pc[t]) { WriterAlone(s, u, t); }
    }
  }

  lemma WipedStays(s: State, t: Tid, s': State)
    requires WellFormed(s) && Exclusive(s) && VaultSafe(s) && Step(s, t, s')
    ensures ZeroedIsWiped(s')
  {
    StepFrame(s, t, s');
    if s'.vault.None? || s'.vault.value !in s'.zeroed {
    } else if s'.zeroed != s.zeroed {
      assert s'.pc[t] == Wiped(s'.vault.value);
    } else {
      assert s'.vault == s.vault;
      var u :| u in s.pc && s.pc[u] == Wiped(s.vault.value);
      assert u in Insiders(s, false);
      assert s'.pc[u] == s.pc[u];
    }
  }

  lemma StepKeepsKnown(s: State, t: Tid, s': State)
    requires VaultSafe(s) && Step(s, t, s')
    ensures KnownVaults(s')
  {
  }

  lemma StepKeepsInv(s: State, t: Tid, s': State)
    requires Inv(s) && Step(s, t, s')
    ensures Inv(s')
  {
    StepKeepsWellFormed(s, t, s');
    StepKeepsCounts(s, t, s');
    StepKeepsExclusive(s, t, s');
    StepKeepsWakeups(s, t, s');
    StepKeepsUsers(s, t, s');
    StepKeepsWipers(s, t, s');
    WipedStays(s, t, s');
    StepKeepsKnown(s, t, s');
  }

  // ----- every execution -----

  predicate Execution(run: seq<State>, who: seq<Tid>) {
    && |run| == |who| + 1
    && Init(run[0])
    && forall i :: 0 <= i < |who| ==> Step(run[i], who[i], run[i + 1])
  }

  lemma {:induction false} ReachableInv(run: seq<State>, who: seq<Tid>, i: nat)
    requires Execution(run, who) && i < |run|
    ensures Inv(run[i])
  {
    if i == 0 {
      InitHolds(run[0]);
    } else {
      ReachableInv(run, who, i - 1);
      StepKeepsInv(run[i - 1], who[i - 1], run[i]);
    }
  }

  /** In every reachable state: at most one writer, never a writer with a reader; the counters count the
      threads inside; and no wake-up is lost: unless the thread in the condition is about to notify all, a
      sleeping reader has a writer inside to wait for and a sleeping writer has someone inside. */
  lemma LockIsCorrect(run: seq<State>, who: seq<Tid>, i: nat)
    requires Execution(run, who) && i < |run|
    ensures var s := run[i];
            && s.readers == |Insiders(s, true)| && s.writers == |Insiders(s, false)|
            && s.writers <= 1
            && (s.writers == 1 ==> s.readers == 0)
            && NoLostWakeup(s)
            && (AboutToNotify(s) || forall t :: t in s.pc && s.pc[t].Asleep? && t in s.job ==>
                                                  Insiders(s, false) != {}
                                                  || (!s.job[t].Reading? && Insiders(s, true) != {}))
  {
    ReachableInv(run, who, i);
    var s := run[i];
    if Insiders(s, false) != {} {
      var w :| w in Insiders(s, false);
      assert Insiders(s, false) == {w};
    }
  }

  /** While a thread is between reading the vault and the end of its section, that vault stays in service
      and is not zeroed, whatever the other threads do. */
  lemma VaultStaysUsable(run: seq<State>, who: seq<Tid>, i: nat, j: nat, t: Tid)
    requires Execution(run, who) && i <= j < |run|
    requires forall k :: i <= k <= j ==> t in run[k].pc && run[k].pc[t].Using?
    ensures run[j].pc[t] == run[i].pc[t]
    ensures forall k :: i <= k <= j ==> run[k].vault == Some(run[i].pc[t].v) && run[i].pc[t].v !in run[k].zeroed
  {
    ReachableInv(run, who, j);
    if i < j {
      VaultStaysUsable(run, who, i, j - 1, t);
      assert Step(run[j - 1], who[j - 1], run[j]);
    }
  }

  predicate CanMove(s: State, t: Tid) {
    && t in s.pc && t in s.job
    && match s.pc[t]
       case Finished => false
       case Asleep => false
       case Start => s.mutex.None?
       case Woken => s.mutex.None?
       case Leaving => s.mutex.None?
       case _ => true
  }

  lemma CanMoveSound(s: State, t: Tid)
    requires CanMove(s, t)
    ensures exists s' :: Step(s, t, s') && s' != s
  {
    var reader := s.job[t].Reading?;
    var s' := match s.pc[t]
      case Start => At(s, t, Testing).(mutex := Some(t))
      case Testing => if MustWait(s, reader) then At(s, t, Asleep).(mutex := None)
      else Count(At(s, t, Counted), reader, 1)
      case Woken => At(s, t, Testing).(mutex := Some(t))
      case Counted => At(s, t, Inside).(mutex := None)
      case Inside =>
        if s.job[t].Unlocking? then At(s, t, Leaving).(vault := Some(s.made), made := s.made + 1)
        else if s.vault.None? then At(s, t, Leaving)
        else if s.job[t].Locking? then At(s, t, Wiped(s.vault.value)).(zeroed := s.zeroed + {s.vault.value})
        else At(s, t, Using(s.vault.value))
      case Using(v) => At(s, t, Leaving)
      case Wiped(v) =>
        if s.job[t].Rekeying? then At(s, t, Leaving).(vault := Some(s.made), made := s.made + 1)
        else At(s, t, Leaving).(vault := None)
      case Leaving => At(s, t, Exiting).(mutex := Some(t))
      case Exiting => Count(At(s, t, Notifying), reader, -1)
      case Notifying => At(if NotifiesAll(s, reader) then WakeAll(s) else s, t, Releasing)
      case _ => At(s, t, Finished).(mutex := None);
    assert s'.pc[t] != s.pc[t];
    assert Step(s, t, s');
  }

  /** No deadlock: as long as some thread is under way, some thread can take a step that changes the state. */
  lemma SomeoneCanMove(run: seq<State>, who: seq<Tid>, i: nat, t: Tid)
    requires Execution(run, who) && i < |run|
    requires t in run[i].pc && !run[i].pc[t].Finished?
    ensures exists u, s' :: Step(run[i], u, s') && s' != run[i]
  {
    ReachableInv(run, who, i);
    var s := run[i];
    var u := Mover(s, t);
    CanMoveSound(s, u);
  }

  lemma Mover(s: State, t: Tid) returns (u: Tid)
    requires Inv(s) && t in s.pc && !s.pc[t].Finished?
    ensures CanMove(s, u)
  {
    if s.mutex.Some? {
      u := s.mutex.value;
    } else if s.pc[t].Asleep? {
      assert MustWait(s, s.job[t].Reading?);
      assert Insiders(s, false) != {} || Insiders(s, true) != {};
      if Insiders(s, false) != {} { u :| u in Insiders(s, false); } else { u :| u in Insiders(s, true); }
    } else {
      u := t;
    }
  }
}
