/** One PUT from beginning to end, as the program text has it, while the other clients do
    to the file whatever the record locks let them. */
module PutCommand {
  import opened RecordUpdate

  datatype Outcome = BadNumber | Unchanged | Saved | Cancelled

  /** The answers at the three prompts; an empty one leaves the field alone. */
  datatype Edits = Edits(name: string, address: string, semester: SemesterEdit)
  datatype SemesterEdit = Keep | Set(number: int)

  const FIELD: nat := 79

  function Field(current: string, answer: string): string {
    if answer == "" then current else if |answer| <= FIELD then answer else answer[..FIELD]
  }

  /** The record the user makes of `rec`; the semester is cut to an unsigned byte. */
  function Edited(rec: Record, edits: Edits): Record {
    Record(Field(rec.name, edits.name), Field(rec.address, edits.address),
           match edits.semester case Keep => rec.semester case Set(n) => n % 256)
  }

  /** An empty answer leaves a field as it is; of another one the first 79 bytes are taken,
      or the number modulo 256. */
  lemma EditedFields(rec: Record, edits: Edits)
    ensures var e := Edited(rec, edits);
      && (edits.name == "" ==> e.name == rec.name)
      && (0 < |edits.name| <= 79 ==> e.name == edits.name)
      && (|edits.name| > 79 ==> |e.name| == 79 && e.name == edits.name[..79])
      && (edits.address == "" ==> e.address == rec.address)
      && (0 < |edits.address| <= 79 ==> e.address == edits.address)
      && (|edits.address| > 79 ==> |e.address| == 79 && e.address == edits.address[..79])
      && (edits.semester == Keep ==> e.semester == rec.semester)
      && (edits.semester.Set? ==> 0 <= e.semester < 256 && (edits.semester.number - e.semester) % 256 == 0)
  {
  }

  /** The fields the user leaves alone are the same in both records. */
  predicate AgreeOutside(older: Record, newer: Record, edits: Edits) {
    && (edits.name == "" ==> older.name == newer.name)
    && (edits.address == "" ==> older.address == newer.address)
    && (edits.semester == Keep ==> older.semester == newer.semester)
  }

  lemma OnTopIff(older: Record, newer: Record, edits: Edits)
    ensures Edited(older, edits) == Edited(newer, edits) <==> AgreeOutside(older, newer, edits)
  {
  }

  /** `log` goes on from `earlier`: what has happened stays as it was. */
  ghost predicate Extends(log: seq<Commit>, earlier: seq<Commit>) {
    && |earlier| <= |log|
    && (forall i :: 0 <= i < |earlier| ==> log[i] == earlier[i])
    && (forall k :: 0 <= k <= |earlier| ==> log[..k] == earlier[..k])
  }

  lemma OthersSoFar(log: seq<Commit>, k: nat, start: nat, me: nat, n: nat)
    requires k <= |log|
    ensures Others(log[..k], start, k, me, n) == Others(log, start, k, me, n) <= Others(log, start, |log|, me, n)
  {
    hide Others;
    OthersPrefix(log[..k], log[k..], start, k, me, n);
    assert log[..k] + log[k..] == log;
    OthersGrow(log, start, k, |log|, me, n);
  }

  /** Another client has changed the address while the user changed the name: on top of the
      newer record the old address goes back. */
  lemma OthersChangeLost(older: Record, newer: Record, edits: Edits)
    requires older == Record("A", "old street", 1) && newer == Record("A", "new street", 1)
    requires edits == Edits("B", "", Keep)
    ensures Edited(older, edits) == Record("B", "old street", 1) && Edited(newer, edits) == Record("B", "new street", 1)
    ensures Edited(older, edits) != Edited(newer, edits) && !AgreeOutside(older, newer, edits)
  {
    assert "old street"[0] != "new street"[0];
    OnTopIff(older, newer, edits);
  }

  /** The value of record `n` after the commits of `history`. */
  ghost function ValueAfter(initial: seq<Record>, history: seq<Commit>, n: nat): Record
    requires n < |initial|
  {
    Replay(initial, history)[n]
  }

  /** A save is the last commit. It replaces the value last seen by the edited form of the
      value first read, which is the value last seen with the same edits exactly if the
      fields left alone have not changed. */
  ghost predicate SavesOnTop(initial: seq<Record>, log: seq<Commit>, first: nat, seen: nat,
                             me: nat, n: nat, edits: Edits)
    requires first <= seen <= |log| && n < |initial|
  {
    && seen < |log|
    && var shown, mine := ValueAfter(initial, log[..first], n), log[|log| - 1];
       && mine.client == me && mine.record == n && mine.from != mine.to
       && mine.to == Edited(shown, edits) && mine.from == ValueAfter(initial, log[..seen], n)
       && (mine.to == Edited(mine.from, edits) <==> AgreeOutside(shown, mine.from, edits))
  }

  /** There was a conflict, and the user, or the end of the input, said no. */
  ghost predicate GivesUp(initial: seq<Record>, log: seq<Commit>, prior: nat, seen: nat, n: nat,
                          answers: seq<bool>, retries: nat)
    requires prior <= seen <= |log| && n < |initial|
  {
    && (retries < |answers| ==> !answers[retries])
    && ValueAfter(initial, log[..prior], n) != ValueAfter(initial, log[..seen], n)
  }

  /** There is nothing to write: the record is what the edits would make of it. */
  ghost predicate NothingToWrite(initial: seq<Record>, log: seq<Commit>, first: nat, seen: nat, n: nat, edits: Edits)
    requires first <= seen <= |log| && n < |initial|
  {
    Edited(ValueAfter(initial, log[..first], n), edits) == ValueAfter(initial, log[..seen], n)
  }

  /** How far a PUT has come: what its user wants, where in the log it started, first read
      and last saw the record, and how often its user has gone on after a conflict. */
  datatype Attempt = Attempt(me: nat, n: nat, edits: Edits, answers: seq<bool>,
                             start: nat, first: nat, seen: nat, retries: nat)

  predicate InRange(initial: seq<Record>, log: seq<Commit>, t: Attempt) {
    t.n < |initial| && t.start <= t.first <= t.seen <= |log| && t.retries <= |t.answers|
  }

  /** The state at `Again`, with REC and REC_WRK. */
  ghost predicate Trying(initial: seq<Record>, log: seq<Commit>, t: Attempt, rec: Record, work: Record) {
    && InRange(initial, log, t)
    && work == Edited(ValueAfter(initial, log[..t.first], t.n), t.edits)
    && rec == ValueAfter(initial, log[..t.seen], t.n)
    && (if t.retries == 0 then t.seen == t.first else t.first < t.seen)
    && (forall i :: t.start <= i < |log| ==> log[i].client != t.me)
    && (forall i :: 0 <= i < t.retries ==> t.answers[i])
    && t.retries <= Others(log[..t.seen], t.start, t.seen, t.me, t.n)
  }

  lemma TryingStarts(initial: seq<Record>, log: seq<Commit>, t: Attempt, rec: Record)
    requires t.n < |initial| && t.start <= |log| && t.first == t.seen == |log| && t.retries == 0
    requires rec == Replay(initial, log)[t.n]
    requires forall i :: t.start <= i < |log| ==> log[i].client != t.me
    ensures Trying(initial, log, t, rec, Edited(rec, t.edits))
  {
    hide Edited, Others;
    WholeLog(log);
  }

  /** The steps of others do not touch it. */
  lemma TryingStays(initial: seq<Record>, log: seq<Commit>, earlier: seq<Commit>, t: Attempt, rec: Record, work: Record)
    requires Trying(initial, earlier, t, rec, work) && Extends(log, earlier)
    requires forall i :: |earlier| <= i < |log| ==> log[i].client != t.me
    ensures Trying(initial, log, t, rec, work) && t.seen <= |earlier|
  {
    hide Edited, Others, ValueAfter;
  }

  lemma LatestIs(initial: seq<Record>, log: seq<Commit>, now: nat, n: nat, latest: Record)
    requires now <= |log| && n < |initial| && latest == Replay(initial, log[..now])[n]
    ensures latest == ValueAfter(initial, log[..now], n)
  {
  }

  /** A newer record has cost another client a commit. */
  lemma Conflict(initial: seq<Record>, log: seq<Commit>, t: Attempt, rec: Record, work: Record,
                 now: nat, latest: Record)
    requires Trying(initial, log, t, rec, work) && t.seen <= now <= |log|
    requires latest == ValueAfter(initial, log[..now], t.n) && latest != rec
    ensures InRange(initial, log, t) && t.seen < now
    ensures forall i :: t.start <= i < |log| ==> log[i].client != t.me
    ensures t.retries < Others(log[..now], t.start, now, t.me, t.n) <= Others(log, t.start, |log|, t.me, t.n)
    ensures GivesUp(initial, log, t.seen, now, t.n, t.answers, t.retries) <==>
            (t.retries < |t.answers| ==> !t.answers[t.retries])
    ensures t.retries < |t.answers| && t.answers[t.retries] ==>
            Trying(initial, log, t.(seen := now, retries := t.retries + 1), latest, work)
  {
    hide Others, Replay, Edited;
    OthersSoFar(log, t.seen, t.start, t.me, t.n);
    OthersSoFar(log, now, t.start, t.me, t.n);
    ChangeIsPaidFor(initial, log, t.start, t.seen, now, t.me, t.n);
  }

  /** What a PUT that comes to its end with `outcome` says of the record. */
  ghost predicate Meaning(initial: seq<Record>, log: seq<Commit>, t: Attempt, outcome: Outcome)
    requires InRange(initial, log, t)
  {
    var shown := ValueAfter(initial, log[..t.first], t.n);
    && (if t.retries == 0 then t.seen == t.first else t.first < t.seen)
    && (forall i :: 0 <= i < t.retries ==> t.answers[i])
    && t.retries <= Others(log, t.start, |log|, t.me, t.n)
    && (outcome == Saved ==> SavesOnTop(initial, log, t.first, t.seen, t.me, t.n, t.edits))
    && (outcome == Unchanged ==> NothingToWrite(initial, log, t.first, t.seen, t.n, t.edits))
    // undisturbed edits are saved exactly if they change something
    && (Others(log, t.start, |log|, t.me, t.n) == 0 ==> (outcome == Saved <==> Edited(shown, t.edits) != shown))
  }

  lemma SavedMeaning(initial: seq<Record>, before: seq<Commit>, log: seq<Commit>, t: Attempt, rec: Record, work: Record)
    requires Trying(initial, before, t, rec, work) && work != rec && Extends(log, before)
    requires log == before + [Commit(t.me, t.n, rec, work)]
    ensures InRange(initial, log, t) && Meaning(initial, log, t, Saved)
    ensures forall i :: t.start <= i < |log| && log[i].client == t.me ==> i == |log| - 1
  {
    hide Others, ValueAfter, Edited, AgreeOutside;
    OthersSoFar(log, t.seen, t.start, t.me, t.n);
    OnTopIff(ValueAfter(initial, log[..t.first], t.n), rec, t.edits);
  }

  lemma UnchangedMeaning(initial: seq<Record>, log: seq<Commit>, t: Attempt, rec: Record, work: Record)
    requires Trying(initial, log, t, rec, work) && work == rec
    ensures InRange(initial, log, t) && Meaning(initial, log, t, Unchanged)
    ensures forall i :: t.start <= i < |log| ==> log[i].client != t.me
  {
    hide Others, ValueAfter, Edited, AgreeOutside;
    OthersSoFar(log, t.seen, t.start, t.me, t.n);
  }

  class SharedFile {
    ghost const initial: seq<Record>
    var records: seq<Record>
    ghost var log: seq<Commit>

    /** The file is the result of its commits, and each of them was a compare-and-swap. */
    ghost predicate Valid()
      reads this
    {
      records == Replay(initial, log) && CompareAndSwap(initial, log)
    }

    constructor (records: seq<Record>)
      ensures Valid() && initial == this.records == records && log == []
    {
      initial, this.records, log := records, records, [];
    }

    /** Replace a record by `to`. */
    method Commit(client: nat, n: nat, from: Record, to: Record)
      requires Valid() && n < |records| && records[n] == from && from != to
      modifies this
      ensures Valid() && records == old(records)[n := to]
      ensures log == old(log) + [RecordUpdate.Commit(client, n, from, to)] && Extends(log, old(log))
    {
      CommitKeepsHistory(initial, log, RecordUpdate.Commit(client, n, from, to));
      records := records[n := to];
      log := log + [RecordUpdate.Commit(client, n, from, to)];
    }

    /** Anything the other clients can do while `me` holds the lock on record `locked`, or
        no lock if that is negative. */
    method OthersRun(me: nat, locked: int)
      requires Valid()
      modifies this
      ensures Valid() && |records| == old(|records|) && Extends(log, old(log))
      ensures forall i :: |old(log)| <= i < |log| ==> log[i].client != me && log[i].record != locked
      ensures 0 <= locked < |records| ==> records[locked] == old(records)[locked]
    {
      var k: nat := *;
      while k > 0
        invariant Valid() && |records| == old(|records|) && Extends(log, old(log))
        invariant forall i :: |old(log)| <= i < |log| ==> log[i].client != me && log[i].record != locked
        invariant 0 <= locked < |records| ==> records[locked] == old(records)[locked]
      {
        var client: nat := *;
        var n: nat := *;
        var to: Record := *;
        if client != me && 0 <= n < |records| && n != locked && records[n] != to {
          Commit(client, n, records[n], to);
        }
        k := k - 1;
      }
    }

    /** `answers` are the user's replies to the question whether to apply the changes on
        top; when they run out the question reads an empty line. `t` is how far the PUT has
        come at its end, and `newer` the position in the log of a conflict that ended it. */
    method Put(me: nat, recNo: int, edits: Edits, answers: seq<bool>)
      returns (outcome: Outcome, ghost t: Attempt, ghost newer: nat)
      requires Valid()
      modifies this
      ensures Valid() && |records| == old(|records|) == |initial| && Extends(log, old(log))
      ensures outcome == BadNumber <==> !(0 <= recNo < |records|)
      // only a save commits, once, and as the last thing
      ensures forall i :: |old(log)| <= i < |log| && log[i].client == me ==> outcome == Saved && i == |log| - 1
      ensures outcome != BadNumber ==>
        && t.(first := 0, seen := 0, retries := 0) == Attempt(me, recNo, edits, answers, |old(log)|, 0, 0, 0)
        && InRange(initial, log, t)
      // what has been saved, or why nothing was
      ensures outcome == Saved || outcome == Unchanged ==> Meaning(initial, log, t, outcome)
      // cancelled only after a conflict, by the user or the end of the input
      ensures outcome == Cancelled ==>
        && t.seen < newer <= |log| && GivesUp(initial, log, t.seen, newer, t.n, answers, t.retries)
        && t.retries < Others(log, t.start, |log|, me, t.n)
    {
      hide Replay, Others, CompareAndSwap, ValueAfter, Edited, AgreeOutside;
      hide SavesOnTop, GivesUp, NothingToWrite, Trying, Meaning;
      ghost var start := |log|;
      newer := 0;
      if recNo < 0 || recNo >= |records| {
        t := Attempt(me, 0, edits, answers, start, start, start, 0);
        return BadNumber, t, newer;
      }
      OthersRun(me, -1);
      var rec := records[recNo];           // read under the shared lock
      var work := Edited(rec, edits);
      t := Attempt(me, recNo, edits, answers, start, |log|, |log|, 0);
      TryingStarts(initial, log, t, rec);
      var asked := 0;
      while work != rec
        invariant Valid() && |records| == old(|records|) == |initial| && Extends(log, old(log))
        invariant t.(first := 0, seen := 0) == Attempt(me, recNo, edits, answers, start, 0, 0, asked)
        invariant Trying(initial, log, t, rec, work) && asked <= |answers|
        decreases |answers| - asked
      {
        ghost var before := log;
        OthersRun(me, -1);                 // while the user types, and while waiting for the exclusive lock
        var latest := records[recNo];
        ghost var now := |log|;
        WholeLog(log);
        OthersRun(me, recNo);              // the lock is held until the write or the prompt
        TryingStays(initial, log, before, t, rec, work);
        before := log;
        if latest == rec {
          Commit(me, recNo, rec, work);
          SavedMeaning(initial, before, log, t, rec, work);
          return Saved, t, newer;
        }
        assert latest == ValueAfter(initial, log[..now], recNo) by {
          LatestIs(initial, log, now, recNo, latest);
        }
        OthersRun(me, -1);                 // while the user decides
        TryingStays(initial, log, before, t, rec, work);
        Conflict(initial, log, t, rec, work, now, latest);
        newer := now;
        if asked == |answers| || !answers[asked] {
          return Cancelled, t, newer;
        }
        t := t.(seen := now, retries := t.retries + 1);
        rec := latest;
        asked := asked + 1;
      }
      UnchangedMeaning(initial, log, t, rec, work);
      return Unchanged, t, newer;
    }
  }
}
