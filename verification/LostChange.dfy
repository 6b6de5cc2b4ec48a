/** A run of two clients in which a PUT, applied on top of a newer record, takes back what
    the other client has changed. */
module LostChange {
  import opened RecordUpdate
  import opened PutCommand

  lemma {:induction false} Append(s: State, a: seq<Step>, b: seq<Step>)
    requires Feasible(s, a) && Feasible(Execute(s, a), b)
    ensures Feasible(s, a + b) && Execute(s, a + b) == Execute(Execute(s, a), b)
    decreases |a|
  {
    if a == [] {
      assert a + b == b;
    } else {
      assert (a + b)[1..] == a[1..] + b;
      Append(Apply(s, a[0]), a[1..], b);
    }
  }

  /** Steps that lead from each state to the next are a run. */
  lemma {:induction false} Chain(states: seq<State>, steps: seq<Step>)
    requires |states| == |steps| + 1
    requires forall i :: 0 <= i < |steps| ==>
               CanStep(states[i], steps[i]) && Apply(states[i], steps[i]) == states[i + 1]
    ensures Feasible(states[0], steps) && Execute(states[0], steps) == states[|steps|]
    decreases |steps|
  {
    hide CanStep, Apply;
    if steps != [] {
      Chain(states[1..], steps[1..]);
    }
  }

  /** Client `c` with the record it has read, its user about to edit. */
  function Editing(s: State, c: nat, n: nat): Client
    requires c < |s.clients| && n < |s.file|
  {
    var now := |s.log|;
    s.clients[c].(pc := Edit, target := n, rec := s.file[n], startedAt := now, seenAt := now, newAt := now,
                  conflicts := 0, retries := 0)
  }

  /** An idle client starts a PUT and reads the record. */
  lemma Reads(s: State, c: nat, n: nat) returns (steps: seq<Step>)
    requires c < |s.clients| && n < |s.file| && s.clients[c].pc == Idle && s.locks == {}
    ensures Feasible(s, steps) && Execute(s, steps) == s.(clients := s.clients[c := Editing(s, c, n)])
  {
    hide Feasible, Execute;
    var s1 := Apply(s, StartPut(c, n));
    var s2 := Apply(s1, Advance(c));
    var s3 := Apply(s2, Advance(c));
    var s4 := Apply(s3, Advance(c));
    assert s4.locks == {};
    assert s4.clients == s.clients[c := Editing(s, c, n)];
    steps := [StartPut(c, n), Advance(c), Advance(c), Advance(c)];
    Chain([s, s1, s2, s3, s4], steps);
  }

  /** Client `c` with the record locked and read again. */
  function Deciding(s: State, c: nat): Client
    requires c < |s.clients| && s.clients[c].target < |s.file|
  {
    s.clients[c].(pc := Decide, latest := s.file[s.clients[c].target], newAt := |s.log|)
  }

  /** From `Again`, with something to write: lock, and read again. */
  lemma Rereads(s: State, c: nat) returns (steps: seq<Step>)
    requires c < |s.clients| && s.clients[c].pc == Again && s.clients[c].target < |s.file| && s.locks == {}
    requires s.clients[c].work != s.clients[c].rec
    ensures Feasible(s, steps)
    ensures Execute(s, steps) ==
            s.(locks := {Lock(c, s.clients[c].target, true)}, clients := s.clients[c := Deciding(s, c)])
  {
    hide Feasible, Execute;
    var s1 := Apply(s, Advance(c));
    var s2 := Apply(s1, Advance(c));
    var s3 := Apply(s2, Advance(c));
    assert s3.clients == s.clients[c := Deciding(s, c)];
    steps := [Advance(c), Advance(c), Advance(c)];
    Chain([s, s1, s2, s3], steps);
  }

  /** A client whose record is still current goes from `Again` to the end. */
  lemma Saves(s: State, c: nat) returns (steps: seq<Step>)
    requires c < |s.clients| && s.clients[c].pc == Again && s.clients[c].target < |s.file| && s.locks == {}
    requires s.clients[c].rec == s.file[s.clients[c].target] != s.clients[c].work
    ensures Feasible(s, steps)
    ensures var end, me := Execute(s, steps), s.clients[c];
      && end.file == s.file[me.target := me.work] && end.locks == {} && end.initial == s.initial
      && end.log == s.log + [Commit(c, me.target, me.rec, me.work)]
      && |end.clients| == |s.clients| && end.clients[c].pc == Idle
      && forall d :: 0 <= d < |s.clients| && d != c ==> end.clients[d] == s.clients[d]
  {
    hide Feasible, Execute;
    var first := Rereads(s, c);
    var s1 := Execute(s, first);
    var s2 := Apply(s1, Advance(c));
    var s3 := Apply(s2, Advance(c));
    var s4 := Apply(s3, Advance(c));
    assert s4.locks == {};
    Chain([s1, s2, s3, s4], [Advance(c), Advance(c), Advance(c)]);
    Append(s, first, [Advance(c), Advance(c), Advance(c)]);
    steps := first + [Advance(c), Advance(c), Advance(c)];
  }

  lemma Enters(s: State, c: nat, edited: Record)
    requires c < |s.clients| && s.clients[c].pc == Edit
    ensures Feasible(s, [Enter(c, edited)])
    ensures Execute(s, [Enter(c, edited)]) == s.(clients := s.clients[c := s.clients[c].(pc := Again, work := edited)])
  {
    var s1 := Apply(s, Enter(c, edited));
    Chain([s, s1], [Enter(c, edited)]);
  }

  /** A client finds its record changed, and its user applies the changes on top. */
  lemma GoesBack(s: State, c: nat, edited: Record) returns (steps: seq<Step>)
    requires c < |s.clients| && s.clients[c].pc == Edit && s.clients[c].target < |s.file| && s.locks == {}
    requires edited != s.clients[c].rec && s.clients[c].rec != s.file[s.clients[c].target]
    ensures Feasible(s, steps)
    ensures var end, me := Execute(s, steps), s.clients[c];
      && end.file == s.file && end.locks == {} && end.log == s.log && end.initial == s.initial
      && |end.clients| == |s.clients| && end.clients[c].pc == Again && end.clients[c].target == me.target
      && end.clients[c].rec == s.file[me.target] && end.clients[c].work == edited
  {
    hide Feasible, Execute;
    Enters(s, c, edited);
    var s1 := Execute(s, [Enter(c, edited)]);
    var first := Rereads(s1, c);
    Append(s, [Enter(c, edited)], first);
    var s2 := Execute(s1, first);
    var s3 := Apply(s2, Advance(c));
    var s4 := Apply(s3, Advance(c));
    var s5 := Apply(s4, Answer(c, true));
    assert s5.locks == {};
    var last := [Advance(c), Advance(c), Answer(c, true)];
    Chain([s2, s3, s4, s5], last);
    Append(s, [Enter(c, edited)] + first, last);
    steps := [Enter(c, edited)] + first + last;
  }

  /** Client 1 replaces the record by `newer` while the user of client 0 edits the old one. */
  lemma Meanwhile(s: State, newer: Record) returns (steps: seq<Step>)
    requires Initial(s) && |s.clients| >= 2 && s.file != [] && newer != s.file[0]
    ensures Feasible(s, steps)
    ensures var end := Execute(s, steps);
      && end.file == s.file[0 := newer] && end.locks == {} && end.initial == s.initial
      && end.log == [Commit(1, 0, s.file[0], newer)] && |end.clients| == |s.clients|
      && end.clients[0] == Editing(s, 0, 0)
  {
    hide Feasible, Execute, Editing;
    EditingIs(s, 0, 0);
    var first := Reads(s, 0, 0);
    var s1 := Execute(s, first);
    EditingIs(s1, 1, 0);
    var second := Reads(s1, 1, 0);
    var s2 := Execute(s1, second);
    Enters(s2, 1, newer);
    var s3 := Execute(s2, [Enter(1, newer)]);
    var third := Saves(s3, 1);
    Append(s2, [Enter(1, newer)], third);
    Append(s1, second, [Enter(1, newer)] + third);
    Append(s, first, second + ([Enter(1, newer)] + third));
    steps := first + (second + ([Enter(1, newer)] + third));
  }

  lemma EditingIs(s: State, c: nat, n: nat)
    requires c < |s.clients| && n < |s.file|
    ensures var me := Editing(s, c, n);
      me.pc == Edit && me.target == n && me.rec == s.file[n]
  {
  }

  /** For any record, any change of it by client 1, and any edits by client 0 that are made
      on the old record and applied on top: some run ends with the edited old record, which
      is the new one with the same edits exactly if the fields left alone agree. */
  lemma OverwriteRun(s: State, newer: Record, edits: Edits) returns (steps: seq<Step>)
    requires Initial(s) && |s.clients| >= 2 && s.file != [] && newer != s.file[0]
    requires Edited(s.file[0], edits) != s.file[0] && Edited(s.file[0], edits) != newer
    ensures Feasible(s, steps)
    ensures var end, older, mine := Execute(s, steps), s.file[0], Edited(s.file[0], edits);
      && end.file == s.file[0 := mine]
      && end.log == [Commit(1, 0, older, newer), Commit(0, 0, newer, mine)]
      && (end.file[0] == Edited(newer, edits) <==> AgreeOutside(older, newer, edits))
  {
    hide Feasible, Execute, Editing, Edited, AgreeOutside, Initial;
    var mine := Edited(s.file[0], edits);
    EditingIs(s, 0, 0);
    var before := Meanwhile(s, newer);
    var s1 := Execute(s, before);
    var back := GoesBack(s1, 0, mine);
    var s2 := Execute(s1, back);
    var last := Saves(s2, 0);
    Append(s1, back, last);
    Append(s, before, back + last);
    steps := before + (back + last);
    OnTopIff(s.file[0], newer, edits);
  }

  /** One client changes the address, the other the name: the old address comes back. */
  lemma AddressGoesBack(s: State) returns (steps: seq<Step>)
    requires Initial(s) && |s.clients| >= 2 && s.file != [] && s.file[0] == Record("A", "old street", 1)
    ensures Feasible(s, steps)
    ensures var end := Execute(s, steps);
      && end.file == s.file[0 := Record("B", "old street", 1)]
      && end.log == [Commit(1, 0, Record("A", "old street", 1), Record("A", "new street", 1)),
                     Commit(0, 0, Record("A", "new street", 1), Record("B", "old street", 1))]
  {
    var older, newer, edits := s.file[0], Record("A", "new street", 1), Edits("B", "", Keep);
    OthersChangeLost(older, newer, edits);
    assert older.name != Edited(older, edits).name && newer.name != Edited(older, edits).name;
    assert "old street"[0] != "new street"[0];
    hide Initial, Feasible, Execute, Edited, AgreeOutside;
    steps := OverwriteRun(s, newer, edits);
  }
}
