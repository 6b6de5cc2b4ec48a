/** Optimistic update of the records of a shared file by any number of clients: read,
    edit, lock, compare, write or retry, with one lock per record. */
module RecordUpdate {

  /** A record as stored; two records are compared as a whole. */
  datatype Record = Record(name: string, address: string, semester: nat)

  /** What the kernel knows about a held lock. */
  datatype Lock = Lock(client: nat, record: nat, exclusive: bool)

  datatype Pc =
    | Idle
    | GetLock | GetRead | GetUnlock
    | PutLock        // F_RDLCK of the first read
    | PutRead
    | PutUnlock
    | Edit           // the user edits REC_WRK
    | Again          // compare REC_WRK with REC
    | WriteLock      // F_WRLCK
    | Reread
    | Decide         // compare REC_NEW with REC
    | UnlockStale    // the record was changed by another process
    | Ask            // apply the changes on top?
    | Write
    | UnlockDone

  /** A client and its variables. `startedAt`, `seenAt` and `newAt` are history: the length
      of the commit log when its PUT started and when REC and REC_NEW were read;
      `conflicts` counts the changed records it has met and `retries` its jumps back. */
  datatype Client = Client(
    pc: Pc,
    target: nat,
    rec: Record,
    work: Record,
    latest: Record,
    startedAt: nat,
    seenAt: nat,
    newAt: nat,
    conflicts: nat,
    retries: nat)

  /** History of the writes: `from` is REC of the writing client. */
  datatype Commit = Commit(client: nat, record: nat, from: Record, to: Record)

  datatype State = State(
    initial: seq<Record>,
    file: seq<Record>,
    locks: set<Lock>,
    clients: seq<Client>,
    log: seq<Commit>)

  datatype Step =
    | StartGet(c: nat, n: int)
    | StartPut(c: nat, n: int)
    | Enter(c: nat, edited: Record)    // the user's edit
    | Answer(c: nat, yes: bool)
    | Advance(c: nat)                  // any other step of the client

  function Holds(c: Client): set<(nat, bool)> {
    match c.pc
    case GetRead => {(c.target, false)}
    case GetUnlock => {(c.target, false)}
    case PutRead => {(c.target, false)}
    case PutUnlock => {(c.target, false)}
    case Reread => {(c.target, true)}
    case Decide => {(c.target, true)}
    case UnlockStale => {(c.target, true)}
    case Write => {(c.target, true)}
    case UnlockDone => {(c.target, true)}
    case _ => {}
  }

  predicate Conflicting(a: Lock, b: Lock) {
    a.client != b.client && a.record == b.record && (a.exclusive || b.exclusive)
  }

  predicate Grantable(locks: set<Lock>, wanted: Lock) {
    forall held :: held in locks ==> !Conflicting(held, wanted)
  }

  predicate WaitsForLock(pc: Pc) {
    pc == GetLock || pc == PutLock || pc == WriteLock
  }

  function Wanted(s: State, c: nat): Lock
    requires c < |s.clients|
  {
    Lock(c, s.clients[c].target, s.clients[c].pc == WriteLock)
  }

  predicate CanStep(s: State, step: Step) {
    && step.c < |s.clients|
    && var me := s.clients[step.c];
       match step
       case StartGet(_, _) => me.pc == Idle
       case StartPut(_, _) => me.pc == Idle
       case Enter(_, _) => me.pc == Edit
       case Answer(_, _) => me.pc == Ask
       case Advance(c) =>
         && me.pc != Idle && me.pc != Edit && me.pc != Ask && me.target < |s.file|
         && (WaitsForLock(me.pc) ==> Grantable(s.locks, Wanted(s, c)))
  }

  function Go(s: State, c: nat, me: Client, pc: Pc): State
    requires c < |s.clients|
  {
    s.(clients := s.clients[c := me.(pc := pc)])
  }

  function ApplyAdvance(s: State, c: nat): State
    requires CanStep(s, Advance(c))
  {
    var me := s.clients[c];
    var n := me.target;
    match me.pc
    case GetLock => Go(s.(locks := s.locks + {Wanted(s, c)}), c, me, GetRead)
    case GetRead => Go(s, c, me.(rec := s.file[n]), GetUnlock)
    case GetUnlock => Go(s.(locks := s.locks - {Lock(c, n, false)}), c, me, Idle)
    case PutLock => Go(s.(locks := s.locks + {Wanted(s, c)}), c, me, PutRead)
    case PutRead => Go(s, c, me.(rec := s.file[n], seenAt := |s.log|), PutUnlock)
    case PutUnlock => Go(s.(locks := s.locks - {Lock(c, n, false)}), c, me, Edit)
    case Again => Go(s, c, me, if me.work != me.rec then WriteLock else Idle)
    case WriteLock => Go(s.(locks := s.locks + {Wanted(s, c)}), c, me, Reread)
    case Reread => Go(s, c, me.(latest := s.file[n], newAt := |s.log|), Decide)
    case Decide => Go(s, c, me, if me.latest != me.rec then UnlockStale else Write)
    case UnlockStale =>
      Go(s.(locks := s.locks - {Lock(c, n, true)}), c,
         me.(rec := me.latest, seenAt := me.newAt, conflicts := me.conflicts + 1), Ask)
    case Write =>
      Go(s.(file := s.file[n := me.work], log := s.log + [Commit(c, n, me.rec, me.work)]), c, me, UnlockDone)
    case UnlockDone => Go(s.(locks := s.locks - {Lock(c, n, true)}), c, me, Idle)
    case _ => s
  }

  function Apply(s: State, step: Step): State
    requires CanStep(s, step)
  {
    var me := s.clients[step.c];
    match step
    case StartGet(c, n) => if n < 0 || n >= |s.file| then s else Go(s, c, me.(target := n), GetLock)
    case StartPut(c, n) =>
      if n < 0 || n >= |s.file| then s
      else
        var now := |s.log|;
        Go(s, c, me.(target := n, startedAt := now, seenAt := now, newAt := now, conflicts := 0, retries := 0), PutLock)
    case Enter(c, edited) => Go(s, c, me.(work := edited), Again)
    case Answer(c, yes) => if yes then Go(s, c, me.(retries := me.retries + 1), Again) else Go(s, c, me, Idle)
    case Advance(c) => ApplyAdvance(s, c)
  }

  predicate Feasible(s: State, steps: seq<Step>)
    decreases |steps|
  {
    steps == [] || (CanStep(s, steps[0]) && Feasible(Apply(s, steps[0]), steps[1..]))
  }

  function Execute(s: State, steps: seq<Step>): State
    requires Feasible(s, steps)
    decreases |steps|
  {
    if steps == [] then s else Execute(Apply(s, steps[0]), steps[1..])
  }

  predicate Initial(s: State) {
    && s.file == s.initial && s.locks == {} && s.log == []
    && forall c :: 0 <= c < |s.clients| ==> s.clients[c].pc == Idle
  }

  // ----- The history of the file -----

  /** The file after the commits of `log`. */
  function Replay(initial: seq<Record>, log: seq<Commit>): (file: seq<Record>)
    ensures |file| == |initial|
  {
    if log == [] then initial
    else
      var before, last := Replay(initial, log[..|log| - 1]), log[|log| - 1];
      if last.record < |before| then before[last.record := last.to] else before
  }

  /** Every commit replaced exactly the value its client based it on, by another one. */
  predicate CompareAndSwap(initial: seq<Record>, log: seq<Commit>) {
    forall i :: 0 <= i < |log| ==> SwapsAt(initial, log, i)
  }

  predicate SwapsAt(initial: seq<Record>, log: seq<Commit>, i: nat)
    requires i < |log|
  {
    && log[i].record < |initial|
    && Replay(initial, log[..i])[log[i].record] == log[i].from
    && log[i].from != log[i].to
  }

  /** Commits to `record` by others than `client` in `log[..upTo]`, from position `from` on. */
  function Others(log: seq<Commit>, from: nat, upTo: nat, client: nat, record: nat): nat
    requires upTo <= |log|
  {
    if upTo <= from then 0
    else Others(log, from, upTo - 1, client, record) +
         if log[upTo - 1].client != client && log[upTo - 1].record == record then 1 else 0
  }

  lemma {:induction false} OthersGrow(log: seq<Commit>, from: nat, mid: nat, upTo: nat, client: nat, record: nat)
    requires mid <= upTo <= |log|
    ensures Others(log, from, mid, client, record) <= Others(log, from, upTo, client, record)
  {
    if mid < upTo {
      OthersGrow(log, from, mid, upTo - 1, client, record);
    }
  }

  lemma {:induction false} OthersPrefix(log: seq<Commit>, more: seq<Commit>, from: nat, upTo: nat,
                                        client: nat, record: nat)
    requires upTo <= |log|
    ensures Others(log + more, from, upTo, client, record) == Others(log, from, upTo, client, record)
  {
    if upTo > from {
      OthersPrefix(log, more, from, upTo - 1, client, record);
    }
  }

  /** If a record has changed between two points of the log, and not by `client`, somebody
      else has committed to it in between. */
  lemma {:induction false} ChangeIsPaidFor(initial: seq<Record>, log: seq<Commit>, from: nat, a: nat, b: nat,
                                           client: nat, n: nat)
    requires from <= a <= b <= |log| && n < |initial|
    requires Replay(initial, log[..a])[n] != Replay(initial, log[..b])[n]
    requires forall i :: from <= i < |log| ==> log[i].client != client
    ensures Others(log, from, a, client, n) < Others(log, from, b, client, n)
  {
    if a < b {
      assert log[..b][..b - 1] == log[..b - 1];
      if log[b - 1].record == n {
        OthersGrow(log, from, a, b - 1, client, n);
      } else {
        ChangeIsPaidFor(initial, log, from, a, b - 1, client, n);
      }
    }
  }

  // ----- The invariant -----

  predicate InPut(pc: Pc) {
    pc != Idle && pc != GetLock && pc != GetRead && pc != GetUnlock
  }

  /** Between the first read of a PUT and its write. */
  predicate HasRead(pc: Pc) {
    InPut(pc) && pc != PutLock && pc != PutRead && pc != UnlockDone
  }

  /** After the comparison of REC_WRK with REC, and before the write. */
  predicate PastCompare(pc: Pc) {
    pc == WriteLock || pc == Reread || pc == Decide || pc == Write
  }

  predicate HasReread(pc: Pc) {
    pc == Decide || pc == UnlockStale || pc == Write
  }

  /** REC and REC_NEW are values the record had when they were read; while the lock is held
      REC_NEW is still current; and conflicts are paid for by commits of others. */
  predicate ClientOk(initial: seq<Record>, file: seq<Record>, log: seq<Commit>, id: nat, c: Client)
    requires |file| == |initial|
  {
    && (c.pc != Idle ==> c.target < |initial|)
    && (InPut(c.pc) ==> c.startedAt <= c.seenAt <= |log| && c.retries <= c.conflicts)
    && (InPut(c.pc) ==> c.conflicts <= Others(log, c.startedAt, c.seenAt, id, c.target))
    && (InPut(c.pc) && c.pc != UnlockDone ==> forall i :: c.startedAt <= i < |log| ==> log[i].client != id)
    && (HasRead(c.pc) ==> c.rec == Replay(initial, log[..c.seenAt])[c.target])
    && (HasReread(c.pc) ==> c.seenAt <= c.newAt <= |log| && c.latest == Replay(initial, log[..c.newAt])[c.target]
                            && c.latest == file[c.target])
    && (c.pc == Ask ==> c.retries < c.conflicts)
    && (c.pc == UnlockStale ==> c.latest != c.rec)
    && (c.pc == Write ==> c.latest == c.rec)
    && (PastCompare(c.pc) ==> c.work != c.rec)
    && (c.pc == GetUnlock ==> c.rec == file[c.target])
  }

  /** The kernel's table lists exactly the locks the clients hold, and no two conflict. */
  predicate LocksOk(s: State) {
    && (forall l :: l in s.locks ==> l.client < |s.clients| && (l.record, l.exclusive) in Holds(s.clients[l.client]))
    && (forall c, h :: 0 <= c < |s.clients| && h in Holds(s.clients[c]) ==> Lock(c, h.0, h.1) in s.locks)
    && (forall a, b :: a in s.locks && b in s.locks ==> !Conflicting(a, b))
  }

  predicate Inv(s: State) {
    && s.file == Replay(s.initial, s.log)
    && CompareAndSwap(s.initial, s.log)
    && LocksOk(s)
    && forall c :: 0 <= c < |s.clients| ==> ClientOk(s.initial, s.file, s.log, c, s.clients[c])
  }

  // ----- Locks -----

  lemma AcquireKeepsLocks(s: State, c: nat, pc: Pc)
    requires LocksOk(s) && c < |s.clients| && Holds(s.clients[c]) == {} && Grantable(s.locks, Wanted(s, c))
    requires Holds(s.clients[c].(pc := pc)) == {(Wanted(s, c).record, Wanted(s, c).exclusive)}
    ensures LocksOk(Go(s.(locks := s.locks + {Wanted(s, c)}), c, s.clients[c], pc))
  {
    var s' := Go(s.(locks := s.locks + {Wanted(s, c)}), c, s.clients[c], pc);
    forall l | l in s'.locks
      ensures l.client < |s'.clients| && (l.record, l.exclusive) in Holds(s'.clients[l.client])
    {
    }
  }

  lemma ReleaseKeepsLocks(s: State, c: nat, me: Client, held: Lock)
    requires LocksOk(s) && c < |s.clients|
    requires Holds(s.clients[c]) == {(held.record, held.exclusive)} && held.client == c && Holds(me) == {}
    ensures LocksOk(s.(locks := s.locks - {held}, clients := s.clients[c := me]))
  {
    var s' := s.(locks := s.locks - {held}, clients := s.clients[c := me]);
    forall l | l in s'.locks
      ensures l.client < |s'.clients| && (l.record, l.exclusive) in Holds(s'.clients[l.client])
    {
      assert l in s.locks && l != held;
    }
  }

  lemma KeepLocks(s: State, c: nat, me: Client, file: seq<Record>, log: seq<Commit>)
    requires LocksOk(s) && c < |s.clients| && Holds(me) == Holds(s.clients[c])
    ensures LocksOk(s.(clients := s.clients[c := me], file := file, log := log))
  {
    var s' := s.(clients := s.clients[c := me], file := file, log := log);
    forall l | l in s'.locks
      ensures l.client < |s'.clients| && (l.record, l.exclusive) in Holds(s'.clients[l.client])
    {
      assert Holds(s'.clients[l.client]) == Holds(s.clients[l.client]);
    }
  }

  /** Two clients that hold locks on the same record are both reading. */
  lemma HoldersApart(s: State, c: nat, d: nat, n: nat, writing: bool, alsoWriting: bool)
    requires LocksOk(s) && c < |s.clients| && d < |s.clients| && c != d
    requires (n, writing) in Holds(s.clients[c]) && (n, alsoWriting) in Holds(s.clients[d])
    ensures !writing && !alsoWriting
  {
    var lc, ld := Lock(c, n, writing), Lock(d, n, alsoWriting);
    assert lc in s.locks && ld in s.locks;
    assert !Conflicting(lc, ld);
  }

  predicate Reading(pc: Pc) {
    pc == GetRead || pc == GetUnlock || pc == PutRead || pc == PutUnlock
  }

  predicate Writing(pc: Pc) {
    pc == Reread || pc == Decide || pc == UnlockStale || pc == Write || pc == UnlockDone
  }

  /** Readers of a record share it; a writer has it alone: a lock is granted exactly if no
      other client writes the record nor, if it is to be written, reads it. */
  lemma GrantedIff(s: State, c: nat)
    requires LocksOk(s) && c < |s.clients| && WaitsForLock(s.clients[c].pc)
    ensures Grantable(s.locks, Wanted(s, c)) <==>
      forall d :: 0 <= d < |s.clients| && d != c && s.clients[d].target == s.clients[c].target ==>
        !Writing(s.clients[d].pc) && (s.clients[c].pc == WriteLock ==> !Reading(s.clients[d].pc))
  {
    hide LocksOk, Grantable, Holds;
    var wanted := Wanted(s, c);
    GrantableMeans(s.locks, wanted);
    forall d | 0 <= d < |s.clients| && d != c
      ensures Lock(d, s.clients[d].target, true) in s.locks <==> Writing(s.clients[d].pc)
      ensures Lock(d, s.clients[d].target, false) in s.locks <==> Reading(s.clients[d].pc)
    {
      LockOf(s, d, true);
      LockOf(s, d, false);
    }
    if !Grantable(s.locks, wanted) {
      var held :| held in s.locks && Conflicting(held, wanted);
      OwnerOf(s, held);
      var d := held.client;
      assert held == Lock(d, s.clients[d].target, held.exclusive);
      LockOf(s, d, held.exclusive);
    }
  }

  lemma GrantableMeans(locks: set<Lock>, wanted: Lock)
    ensures Grantable(locks, wanted) <==> forall held :: held in locks ==> !Conflicting(held, wanted)
  {
  }

  lemma LockOf(s: State, d: nat, exclusive: bool)
    requires LocksOk(s) && d < |s.clients|
    ensures Lock(d, s.clients[d].target, exclusive) in s.locks <==>
            if exclusive then Writing(s.clients[d].pc) else Reading(s.clients[d].pc)
  {
    var l := Lock(d, s.clients[d].target, exclusive);
    if l in s.locks {
      assert (l.record, l.exclusive) in Holds(s.clients[d]);
    } else if (s.clients[d].target, exclusive) in Holds(s.clients[d]) {
      assert false;
    }
  }

  lemma OwnerOf(s: State, held: Lock)
    requires LocksOk(s) && held in s.locks
    ensures held.client < |s.clients| && held.record == s.clients[held.client].target
  {
    assert (held.record, held.exclusive) in Holds(s.clients[held.client]);
  }

  /** A command goes on to lock the record exactly if its number is one of the file's; else
      nothing happens. */
  lemma CommandStarts(s: State, c: nat, n: int, put: bool)
    requires c < |s.clients| && s.clients[c].pc == Idle
    ensures var s' := Apply(s, if put then StartPut(c, n) else StartGet(c, n));
      if 0 <= n < |s.file|
      then s'.clients[c].pc == (if put then PutLock else GetLock) && s'.clients[c].target == n
           && s'.file == s.file && s'.locks == s.locks && s'.log == s.log
      else s' == s
  {
  }

  /** A user who does not want the changes on top of a newer record ends the PUT, which has
      written nothing and holds no lock; one who does sends it back to the comparison. */
  lemma AnswerDecides(s: State, c: nat, yes: bool)
    requires Inv(s) && CanStep(s, Answer(c, yes))
    ensures var s' := Apply(s, Answer(c, yes));
      && s'.file == s.file && s'.log == s.log && s'.locks == s.locks
      && s'.clients[c].pc == (if yes then Again else Idle)
      && (forall l :: l in s'.locks ==> l.client != c)
      && (forall i :: s.clients[c].startedAt <= i < |s'.log| ==> s'.log[i].client != c)
  {
    hide Replay, Others, CompareAndSwap;
    assert ClientOk(s.initial, s.file, s.log, c, s.clients[c]);
    forall l | l in s.locks
      ensures l.client != c
    {
      assert (l.record, l.exclusive) in Holds(s.clients[l.client]);
    }
  }

  // ----- Steps -----

  lemma LogGrows(initial: seq<Record>, log: seq<Commit>, e: Commit, k: nat)
    requires k <= |log|
    ensures (log + [e])[..k] == log[..k]
  {
  }

  /** A commit by another client leaves a client's view in order. */
  lemma OthersStayOk(initial: seq<Record>, file: seq<Record>, log: seq<Commit>, e: Commit, d: nat, c: Client)
    requires |file| == |initial| && e.record < |file| && ClientOk(initial, file, log, d, c)
    requires e.client != d
    requires HasReread(c.pc) || c.pc == GetUnlock ==> c.target != e.record
    ensures ClientOk(initial, file[e.record := e.to], log + [e], d, c)
  {
    hide Replay, Others;
    if InPut(c.pc) {
      LogGrows(initial, log, e, c.seenAt);
      OthersPrefix(log, [e], c.startedAt, c.seenAt, d, c.target);
    }
    if HasReread(c.pc) {
      LogGrows(initial, log, e, c.newAt);
    }
  }

  lemma CommitKeepsHistory(initial: seq<Record>, log: seq<Commit>, e: Commit)
    requires CompareAndSwap(initial, log) && e.record < |initial| && Replay(initial, log)[e.record] == e.from
    requires e.from != e.to
    ensures CompareAndSwap(initial, log + [e])
    ensures Replay(initial, log + [e]) == Replay(initial, log)[e.record := e.to]
  {
    var log' := log + [e];
    assert log'[..|log|] == log;
    forall i | 0 <= i < |log'|
      ensures SwapsAt(initial, log', i)
    {
      assert log'[..i] == log[..i];
      if i < |log| {
        assert SwapsAt(initial, log, i);
      } else {
        assert log[..i] == log;
      }
    }
  }

  lemma WriteKeepsInv(s: State, c: nat)
    requires Inv(s) && CanStep(s, Advance(c)) && s.clients[c].pc == Write
    ensures Inv(ApplyAdvance(s, c))
  {
    hide Replay, Others, Conflicting;
    var me := s.clients[c];
    var e := Commit(c, me.target, me.rec, me.work);
    assert ClientOk(s.initial, s.file, s.log, c, me);
    CommitKeepsHistory(s.initial, s.log, e);
    KeepLocks(s, c, me.(pc := UnlockDone), s.file[me.target := me.work], s.log + [e]);
    var s' := ApplyAdvance(s, c);
    forall d | 0 <= d < |s'.clients|
      ensures ClientOk(s'.initial, s'.file, s'.log, d, s'.clients[d])
    {
      if d == c {
        OthersPrefix(s.log, [e], me.startedAt, me.seenAt, c, me.target);
      } else {
        assert ClientOk(s.initial, s.file, s.log, d, s.clients[d]);
        if HasReread(s.clients[d].pc) && s.clients[d].target == me.target {
          HoldersApart(s, c, d, me.target, true, true);
        }
        if s.clients[d].pc == GetUnlock && s.clients[d].target == me.target {
          HoldersApart(s, c, d, me.target, true, false);
        }
        OthersStayOk(s.initial, s.file, s.log, e, d, s.clients[d]);
      }
    }
  }

  /** A record found changed costs some other client a commit. */
  lemma StaleKeepsInv(s: State, c: nat)
    requires Inv(s) && CanStep(s, Advance(c)) && s.clients[c].pc == UnlockStale
    ensures Inv(ApplyAdvance(s, c))
  {
    hide Replay, Others, Conflicting, LocksOk;
    var me := s.clients[c];
    assert ClientOk(s.initial, s.file, s.log, c, me);
    ChangeIsPaidFor(s.initial, s.log, me.startedAt, me.seenAt, me.newAt, c, me.target);
    var s' := ApplyAdvance(s, c);
    ReleaseKeepsLocks(s, c, s'.clients[c], Lock(c, me.target, true));
  }

  lemma WholeLog(log: seq<Commit>)
    ensures log[..|log|] == log
  {
  }

  lemma LockKeepsInv(s: State, c: nat)
    requires Inv(s) && CanStep(s, Advance(c)) && WaitsForLock(s.clients[c].pc)
    ensures Inv(ApplyAdvance(s, c))
  {
    hide Replay, Others, Conflicting, LocksOk, Grantable, CompareAndSwap;
    assert ClientOk(s.initial, s.file, s.log, c, s.clients[c]);
    AcquireKeepsLocks(s, c, ApplyAdvance(s, c).clients[c].pc);
  }

  lemma UnlockKeepsInv(s: State, c: nat)
    requires Inv(s) && CanStep(s, Advance(c))
    requires var pc := s.clients[c].pc; pc == GetUnlock || pc == PutUnlock || pc == UnlockDone
    ensures Inv(ApplyAdvance(s, c))
  {
    hide Replay, Others, Conflicting, LocksOk, Grantable, CompareAndSwap;
    var me := s.clients[c];
    assert ClientOk(s.initial, s.file, s.log, c, me);
    ReleaseKeepsLocks(s, c, ApplyAdvance(s, c).clients[c], Lock(c, me.target, me.pc == UnlockDone));
  }

  lemma ReadStepKeepsInv(s: State, c: nat)
    requires Inv(s) && CanStep(s, Advance(c))
    requires var pc := s.clients[c].pc; pc == GetRead || pc == PutRead || pc == Reread
    ensures Inv(ApplyAdvance(s, c))
  {
    hide Replay, Conflicting, LocksOk, Others;
    var me := s.clients[c];
    assert ClientOk(s.initial, s.file, s.log, c, me);
    WholeLog(s.log);
    if me.pc == PutRead {
      OthersGrow(s.log, me.startedAt, me.seenAt, |s.log|, c, me.target);
    }
    KeepLocks(s, c, ApplyAdvance(s, c).clients[c], s.file, s.log);
  }

  lemma TestStepKeepsInv(s: State, c: nat)
    requires Inv(s) && CanStep(s, Advance(c))
    requires var pc := s.clients[c].pc; pc == Again || pc == Decide
    ensures Inv(ApplyAdvance(s, c))
  {
    hide Replay, Conflicting, LocksOk, Others;
    assert ClientOk(s.initial, s.file, s.log, c, s.clients[c]);
    KeepLocks(s, c, ApplyAdvance(s, c).clients[c], s.file, s.log);
  }

  lemma StartKeepsInv(s: State, step: Step)
    requires Inv(s) && CanStep(s, step) && (step.StartGet? || step.StartPut?)
    ensures Inv(Apply(s, step))
  {
    hide Replay, Conflicting, LocksOk, CompareAndSwap, Others;
    if 0 <= step.n < |s.file| {
      KeepLocks(s, step.c, Apply(s, step).clients[step.c], s.file, s.log);
    }
  }

  lemma UserStepKeepsInv(s: State, step: Step)
    requires Inv(s) && CanStep(s, step) && (step.Enter? || step.Answer?)
    ensures Inv(Apply(s, step))
  {
    hide Replay, Conflicting, LocksOk, CompareAndSwap, Others;
    assert ClientOk(s.initial, s.file, s.log, step.c, s.clients[step.c]);
    KeepLocks(s, step.c, Apply(s, step).clients[step.c], s.file, s.log);
  }

  lemma StepKeepsInv(s: State, step: Step)
    requires Inv(s) && CanStep(s, step)
    ensures Inv(Apply(s, step))
  {
    hide Inv, ApplyAdvance;
    var pc := s.clients[step.c].pc;
    if step.Advance? && pc == Write {
      WriteKeepsInv(s, step.c);
    } else if step.Advance? && pc == UnlockStale {
      StaleKeepsInv(s, step.c);
    } else if step.Advance? && WaitsForLock(pc) {
      LockKeepsInv(s, step.c);
    } else if step.Advance? && (pc == GetUnlock || pc == PutUnlock || pc == UnlockDone) {
      UnlockKeepsInv(s, step.c);
    } else if step.Advance? && (pc == Again || pc == Decide) {
      TestStepKeepsInv(s, step.c);
    } else if step.Advance? {
      ReadStepKeepsInv(s, step.c);
    } else if step.StartGet? || step.StartPut? {
      StartKeepsInv(s, step);
    } else {
      UserStepKeepsInv(s, step);
    }
  }

  lemma {:induction false} RunKeepsInv(s: State, steps: seq<Step>)
    requires Inv(s) && Feasible(s, steps)
    ensures Inv(Execute(s, steps))
    decreases |steps|
  {
    if steps != [] {
      StepKeepsInv(s, steps[0]);
      RunKeepsInv(Apply(s, steps[0]), steps[1..]);
    }
  }

  /** In every run of PUTs and GETs: the file is what its commits made of it; each commit
      replaced exactly the value its client had last read or been shown; and each time a
      client went back to try again, some other client had committed to that record; and a
      GET holds what the record is. */
  lemma EveryRun(s: State, steps: seq<Step>)
    requires Initial(s) && Feasible(s, steps)
    ensures var end := Execute(s, steps);
            && end.file == Replay(end.initial, end.log)
            && CompareAndSwap(end.initial, end.log)
            && (forall c :: 0 <= c < |end.clients| && InPut(end.clients[c].pc) ==>
                 var me := end.clients[c];
                 && me.startedAt <= me.seenAt <= |end.log|
                 && me.retries <= Others(end.log, me.startedAt, me.seenAt, c, me.target))
            && forall c :: 0 <= c < |end.clients| && end.clients[c].pc == GetUnlock ==>
                 end.clients[c].target < |end.file| && end.clients[c].rec == end.file[end.clients[c].target]
  {
    hide Replay, Others, Conflicting;
    assert s.file == Replay(s.initial, s.log) by { EmptyLog(s.initial); }
    RunKeepsInv(s, steps);
    var end := Execute(s, steps);
    hide Execute, Feasible;
    forall c | 0 <= c < |end.clients| && InPut(end.clients[c].pc)
      ensures var me := end.clients[c];
              && me.startedAt <= me.seenAt <= |end.log|
              && me.retries <= Others(end.log, me.startedAt, me.seenAt, c, me.target)
    {
      assert ClientOk(end.initial, end.file, end.log, c, end.clients[c]);
    }
    forall c | 0 <= c < |end.clients| && end.clients[c].pc == GetUnlock
      ensures end.clients[c].target < |end.file| && end.clients[c].rec == end.file[end.clients[c].target]
    {
      assert ClientOk(end.initial, end.file, end.log, c, end.clients[c]);
    }
  }

  lemma EmptyLog(initial: seq<Record>)
    ensures Replay(initial, []) == initial
  {
  }

  lemma {:induction false} Untouched(initial: seq<Record>, log: seq<Commit>, a: nat, b: nat, n: nat)
    requires a <= b <= |log| && n < |initial|
    requires forall k :: a <= k < b ==> log[k].record != n
    ensures Replay(initial, log[..b])[n] == Replay(initial, log[..a])[n]
  {
    if a < b {
      assert log[..b][..b - 1] == log[..b - 1];
      Untouched(initial, log, a, b - 1, n);
    }
  }

  /** No lost update: of two successive commits to a record, the later one was based on
      what the earlier one wrote. */
  lemma NoLostUpdate(initial: seq<Record>, log: seq<Commit>, i: nat, j: nat)
    requires CompareAndSwap(initial, log) && i < j < |log| && log[i].record == log[j].record
    requires forall k :: i < k < j ==> log[k].record != log[i].record
    ensures log[j].from == log[i].to
  {
    assert SwapsAt(initial, log, i) && SwapsAt(initial, log, j);
    Untouched(initial, log, i + 1, j, log[i].record);
    assert log[..i + 1][..i] == log[..i];
  }

  /** The same for every run: no commit to a record is ever overwritten by a client that
      had not seen its result. */
  lemma RunLosesNoUpdate(s: State, steps: seq<Step>, i: nat, j: nat)
    requires Initial(s) && Feasible(s, steps)
    requires var log := Execute(s, steps).log;
      i < j < |log| && log[i].record == log[j].record && forall k :: i < k < j ==> log[k].record != log[i].record
    ensures var log := Execute(s, steps).log; log[j].from == log[i].to
  {
    EveryRun(s, steps);
    NoLostUpdate(Execute(s, steps).initial, Execute(s, steps).log, i, j);
  }

  /** A client holds at most one lock and never waits while holding it, so unless all are
      idle or waiting for their user, somebody can go on. */
  lemma NoDeadlock(s: State, c: nat) returns (step: Step)
    requires Inv(s) && c < |s.clients|
    requires var pc := s.clients[c].pc; pc != Idle && pc != Edit && pc != Ask
    ensures step.Advance? && CanStep(s, step)
  {
    hide Inv, Conflicting;
    step := Advance(c);
    TargetInFile(s, c);
    if WaitsForLock(s.clients[c].pc) && !Grantable(s.locks, Wanted(s, c)) {
      var held :| held in s.locks && Conflicting(held, Wanted(s, c));
      HolderCanGo(s, held);
      step := Advance(held.client);
    }
  }

  lemma TargetInFile(s: State, c: nat)
    requires Inv(s) && c < |s.clients| && s.clients[c].pc != Idle
    ensures s.clients[c].target < |s.file|
  {
    hide Replay, Others, CompareAndSwap, LocksOk;
    assert ClientOk(s.initial, s.file, s.log, c, s.clients[c]);
  }

  lemma HolderCanGo(s: State, held: Lock)
    requires Inv(s) && held in s.locks
    ensures CanStep(s, Advance(held.client))
  {
    hide Replay, Others, CompareAndSwap;
    assert (held.record, held.exclusive) in Holds(s.clients[held.client]);
    TargetInFile(s, held.client);
  }
}
