/** The hub's `register` and `unregister` split at the points where they release their locks.

    `register` inserts the session, then updates the index under one entry guard. `unregister`
    removes the session, then removes its id from the index under one guard, and only then, if it
    saw the set become empty, removes the user's key. Any number of sessions interleave. */
module HubInterleaving {
  import opened Ids

  /** How far a session has come. It is in the session map while `Inserted` or `Indexed`. */
  datatype Phase = Inserted | Indexed | Removed | Emptied | Done

  datatype State = State(
    owner: map<SessionId, UserId>,
    phase: map<SessionId, Phase>,
    index: map<UserId, set<SessionId>>)
  {
    function Ids(u: UserId): set<SessionId> { if u in index then index[u] else {} }

    predicate In(s: SessionId, p: Phase) { s in phase && phase[s] == p }

    predicate WellFormed() { owner.Keys == phase.Keys }

    /** The sessions whose index insert is done and whose index removal is not. */
    predicate Listed(s: SessionId) { In(s, Indexed) || In(s, Removed) }
  }

  datatype Step =
    | InsertSession(s: SessionId, user: UserId)
    | InsertIndex(s: SessionId)
    | RemoveSession(s: SessionId)
    | RemoveIndex(s: SessionId)
    | DropKey(s: SessionId)

  predicate Enabled(st: State, step: Step) {
    match step
    case InsertSession(s, _) => s !in st.phase
    case InsertIndex(s) => st.In(s, Inserted)
    case RemoveSession(s) => st.In(s, Indexed)
    case RemoveIndex(s) => st.In(s, Removed)
    case DropKey(s) => st.In(s, Emptied)
  }

  function Next(st: State, step: Step): (st': State)
    requires st.WellFormed() && Enabled(st, step)
    ensures st'.WellFormed()
  {
    match step
    case InsertSession(s, u) => st.(owner := st.owner[s := u], phase := st.phase[s := Inserted])
    case InsertIndex(s) =>
      var u := st.owner[s];
      st.(phase := st.phase[s := Indexed], index := st.index[u := st.Ids(u) + {s}])
    case RemoveSession(s) => st.(phase := st.phase[s := Removed])
    case RemoveIndex(s) =>
      var u := st.owner[s];
      if u in st.index then
        var ids := st.index[u] - {s};
        st.(phase := st.phase[s := if ids == {} then Emptied else Done], index := st.index[u := ids])
      else st.(phase := st.phase[s := Done])
    case DropKey(s) => st.(phase := st.phase[s := Done], index := st.index - {st.owner[s]})
  }

  const INITIAL := State(map[], map[], map[])

  /** The state after a schedule; `Feasible` says that each of its steps could happen. */
  function After(steps: seq<Step>): (st: State)
    ensures st.WellFormed()
  {
    if steps == [] then INITIAL
    else
      var st := After(steps[..|steps| - 1]);
      if Enabled(st, steps[|steps| - 1]) then Next(st, steps[|steps| - 1]) else st
  }

  ghost predicate Feasible(steps: seq<Step>) {
    steps == [] || (Feasible(steps[..|steps| - 1]) && Enabled(After(steps[..|steps| - 1]), steps[|steps| - 1]))
  }

  /** Every id the index holds for a user is a listed session of that user. */
  ghost predicate Sound(st: State) {
    forall u, s :: u in st.index && s in st.index[u] ==> s in st.owner && st.owner[s] == u && st.Listed(s)
  }

  /** And the converse: every listed session is in the index. */
  ghost predicate Complete(st: State)
    requires st.WellFormed()
  {
    forall s :: st.Listed(s) ==> s in st.Ids(st.owner[s])
  }

  lemma StepKeepsSound(st: State, step: Step)
    requires st.WellFormed() && Enabled(st, step) && Sound(st)
    ensures Sound(Next(st, step))
  {
    var st' := Next(st, step);
    forall u, s | u in st'.index && s in st'.index[u]
      ensures s in st'.owner && st'.owner[s] == u && st'.Listed(s)
    {
      if s != step.s { assert u in st.index && s in st.index[u]; }
    }
  }

  /** In every interleaving the index lists only what it should. */
  lemma {:induction false} IndexIsAlwaysSound(steps: seq<Step>)
    requires Feasible(steps)
    ensures Sound(After(steps))
  {
    if steps == [] {
    } else {
      IndexIsAlwaysSound(steps[..|steps| - 1]);
      StepKeepsSound(After(steps[..|steps| - 1]), steps[|steps| - 1]);
    }
  }

  /** `step` removes a user's key although another session has entered the set since it was empty. */
  predicate LossyDrop(st: State, step: Step)
    requires st.WellFormed() && Enabled(st, step)
  {
    step.DropKey? && st.Ids(st.owner[step.s]) != {}
  }

  /** Exactly those steps break the index. */
  lemma StepKeepsIndexIffNotLossy(st: State, step: Step)
    requires st.WellFormed() && Enabled(st, step) && Sound(st) && Complete(st)
    ensures Complete(Next(st, step)) <==> !LossyDrop(st, step)
  {
    var st' := Next(st, step);
    if LossyDrop(st, step) {
      var s :| s in st.Ids(st.owner[step.s]);
      assert st.Listed(s) && st'.Listed(s) && s !in st'.Ids(st'.owner[s]);
    } else {
      forall s | st'.Listed(s)
        ensures s in st'.Ids(st'.owner[s])
      {
        if s != step.s { assert st.Listed(s); }
      }
    }
  }

  ghost predicate AlwaysComplete(steps: seq<Step>)
    requires Feasible(steps)
  {
    Complete(After(steps)) && (steps == [] || AlwaysComplete(steps[..|steps| - 1]))
  }

  ghost predicate NeverLossy(steps: seq<Step>)
    requires Feasible(steps)
  {
    steps == [] || (NeverLossy(steps[..|steps| - 1]) && !LossyDrop(After(steps[..|steps| - 1]), steps[|steps| - 1]))
  }

  /** The index is exact throughout a schedule if and only if no key removal in it is lossy. */
  lemma {:induction false} IndexIsExactIffNeverLossy(steps: seq<Step>)
    requires Feasible(steps)
    ensures AlwaysComplete(steps) <==> NeverLossy(steps)
  {
    if steps == [] {
    } else {
      var before := steps[..|steps| - 1];
      IndexIsExactIffNeverLossy(before);
      if AlwaysComplete(before) {
        IndexIsAlwaysSound(before);
        StepKeepsIndexIffNotLossy(After(before), steps[|steps| - 1]);
      }
    }
  }

  // ---- Schedules without the gap.

  /** A session enters its user's set while an unregister that emptied the set has not yet removed
      the key. */
  ghost predicate InGap(st: State, step: Step)
    requires st.WellFormed() && Enabled(st, step)
  {
    step.InsertIndex? && exists s :: st.In(s, Emptied) && st.owner[s] == st.owner[step.s]
  }

  ghost predicate GapFree(steps: seq<Step>)
    requires Feasible(steps)
  {
    steps == [] || (GapFree(steps[..|steps| - 1]) && !InGap(After(steps[..|steps| - 1]), steps[|steps| - 1]))
  }

  ghost predicate EmptiedStayEmpty(st: State)
    requires st.WellFormed()
  {
    forall s :: st.In(s, Emptied) ==> st.Ids(st.owner[s]) == {}
  }

  lemma {:induction false} GapFreeKeepsEmptied(steps: seq<Step>)
    requires Feasible(steps) && GapFree(steps)
    ensures EmptiedStayEmpty(After(steps)) && NeverLossy(steps)
  {
    if steps == [] {
    } else {
      GapFreeKeepsEmptied(steps[..|steps| - 1]);
      var st, step := After(steps[..|steps| - 1]), steps[|steps| - 1];
      var st' := After(steps);
      forall s | st'.In(s, Emptied)
        ensures st'.Ids(st'.owner[s]) == {}
      {
        if s != step.s { assert st.In(s, Emptied); }
      }
    }
  }

  /** With no same-user index insert in the gap, the index is exact at every moment. */
  lemma GapFreeIndexIsExact(steps: seq<Step>)
    requires Feasible(steps) && GapFree(steps)
    ensures AlwaysComplete(steps)
  {
    GapFreeKeepsEmptied(steps);
    IndexIsExactIffNeverLossy(steps);
  }

  // ---- What the calls return.

  /** Some session of the user has done its index insert and not its index removal. */
  ghost predicate UserListed(st: State, u: UserId)
    requires st.WellFormed()
  {
    exists s :: st.Listed(s) && st.owner[s] == u
  }

  /** `register` returns at its index insert whether the user's set was empty; `unregister` returns
      true when it removes the key and false when it leaves the set non-empty or finds none. A
      result is right if it tells, at that moment, whether the user has another listed session. */
  ghost predicate ResultRight(st: State, step: Step)
    requires st.WellFormed() && Enabled(st, step)
  {
    match step
    case InsertIndex(s) => (st.Ids(st.owner[s]) == {}) == !UserListed(st, st.owner[s])
    case RemoveIndex(s) => Next(st, step).In(s, Done) ==> UserListed(Next(st, step), st.owner[s])
    case DropKey(s) => !UserListed(st, st.owner[s])
    case _ => true
  }

  /** While the index is exact, a wrong result is a lossy removal of a key, and conversely. */
  lemma StepResultRightIff(st: State, step: Step)
    requires st.WellFormed() && Enabled(st, step) && Sound(st) && Complete(st)
    ensures ResultRight(st, step) <==> !LossyDrop(st, step)
  {
    match step
    case InsertIndex(s) => ListedIffIds(st, st.owner[s]);
    case RemoveIndex(s) =>
      var u := st.owner[s];
      assert s in st.Ids(u);
      if Next(st, step).In(s, Done) {
        var r :| r in st.index[u] - {s};
        assert Next(st, step).Listed(r);
      }
    case DropKey(s) => ListedIffIds(st, st.owner[s]);
    case _ =>
  }

  lemma ListedIffIds(st: State, u: UserId)
    requires st.WellFormed() && Sound(st) && Complete(st)
    ensures UserListed(st, u) <==> st.Ids(u) != {}
  {
    if st.Ids(u) != {} {
      var s :| s in st.Ids(u);
      assert st.Listed(s);
    }
  }

  ghost predicate ResultsRight(steps: seq<Step>)
    requires Feasible(steps)
  {
    steps == [] || (ResultsRight(steps[..|steps| - 1]) && ResultRight(After(steps[..|steps| - 1]), steps[|steps| - 1]))
  }

  /** Over a schedule every result that `register` and `unregister` return is right if and only if no
      key removal is lossy, that is, if and only if the index is exact throughout. */
  lemma {:induction false} ResultsRightIffNeverLossy(steps: seq<Step>)
    requires Feasible(steps)
    ensures ResultsRight(steps) <==> NeverLossy(steps)
    ensures ResultsRight(steps) <==> AlwaysComplete(steps)
  {
    hide Sound, Complete, ResultRight, LossyDrop, Next, Enabled;
    IndexIsExactIffNeverLossy(steps);
    if steps == [] {
    } else {
      var before, step := steps[..|steps| - 1], steps[|steps| - 1];
      ResultsRightIffNeverLossy(before);
      IndexIsExactIffNeverLossy(before);
      if NeverLossy(before) {
        IndexIsAlwaysSound(before);
        StepResultRightIff(After(before), step);
      }
    }
  }

  // ---- What a lossy drop does.

  /** A live session that the index does not hold: a user dispatch no longer reaches it. */
  predicate Lost(st: State, s: SessionId)
    requires st.WellFormed()
  {
    st.In(s, Indexed) && s !in st.Ids(st.owner[s])
  }

  lemma StepKeepsLostIff(st: State, step: Step, s: SessionId)
    requires st.WellFormed() && Enabled(st, step) && Lost(st, s)
    ensures Lost(Next(st, step), s) <==> step != RemoveSession(s)
  {
  }

  lemma InTheMap(st: State, step: Step, s: SessionId)
    requires st.WellFormed() && Enabled(st, step) && s in st.phase && !st.In(s, Inserted) && !st.In(s, Indexed)
    ensures var st' := Next(st, step); s in st'.phase && !st'.In(s, Inserted) && !st'.In(s, Indexed)
  {
  }

  /** Once lost, a session is lost in every later state up to its own unregister: nothing that other
      sessions do restores it to the index. */
  lemma {:induction false} LostUntilItUnregisters(steps: seq<Step>, k: nat, s: SessionId)
    requires Feasible(steps) && k <= |steps| && Lost(After(steps[..k]), s)
    ensures Lost(After(steps), s) <==> RemoveSession(s) !in steps[k..]
    ensures s in After(steps).phase
    ensures RemoveSession(s) in steps[k..] ==> !After(steps).In(s, Inserted) && !After(steps).In(s, Indexed)
    decreases |steps|
  {
    hide Next, Enabled, Lost;
    if k == |steps| {
      assert steps[..k] == steps;
      LostIsIndexed(After(steps), s);
    } else {
      var before, step := steps[..|steps| - 1], steps[|steps| - 1];
      assert before[..k] == steps[..k];
      assert steps[k..] == before[k..] + [step];
      LostUntilItUnregisters(before, k, s);
      if RemoveSession(s) in before[k..] {
        InTheMap(After(before), step, s);
        NotLost(After(steps), s);
      } else {
        StepKeepsLostIff(After(before), step, s);
        LostEnds(After(before), step, s);
      }
    }
  }

  lemma LostIsIndexed(st: State, s: SessionId)
    requires st.WellFormed() && Lost(st, s)
    ensures st.In(s, Indexed)
  {
  }

  lemma NotLost(st: State, s: SessionId)
    requires st.WellFormed() && !st.In(s, Indexed)
    ensures !Lost(st, s)
  {
  }

  lemma LostEnds(st: State, step: Step, s: SessionId)
    requires st.WellFormed() && Enabled(st, step) && Lost(st, s)
    ensures var st' := Next(st, step);
            s in st'.phase && (step == RemoveSession(s) ==> !st'.In(s, Inserted) && !st'.In(s, Indexed))
  {
  }

  /** Whom a user dispatch sends to: the sessions that the index lists and the session map holds. */
  function Reached(st: State, u: UserId): set<SessionId> {
    set s | s in st.Ids(u) && (st.In(s, Inserted) || st.In(s, Indexed))
  }

  /** In every interleaving that is each of the user's indexed sessions that is not lost. */
  lemma DispatchReachesAllButLost(steps: seq<Step>, u: UserId, s: SessionId)
    requires Feasible(steps)
    ensures var st := After(steps);
            s in Reached(st, u) <==> st.In(s, Indexed) && st.owner[s] == u && !Lost(st, s)
  {
    IndexIsAlwaysSound(steps);
  }

  lemma Extend(steps: seq<Step>, step: Step) returns (longer: seq<Step>)
    requires Feasible(steps) && Enabled(After(steps), step)
    ensures longer == steps + [step] && Feasible(longer) && After(longer) == Next(After(steps), step)
  {
    longer := steps + [step];
    assert longer[..|steps|] == steps;
  }

  /** Sessions 1 and 2 of user 0: 2 registers between 1 emptying the set and removing the key. */
  lemma GapLosesASession()
    ensures exists steps :: Feasible(steps) && Lost(After(steps), 2)
  {
    hide After, Feasible;
    var steps: seq<Step> := [];
    assert Feasible([]) && After([]) == INITIAL by { NoSteps(); }
    steps := Extend(steps, InsertSession(1, 0));
    steps := Extend(steps, InsertIndex(1));
    steps := Extend(steps, RemoveSession(1));
    steps := Extend(steps, RemoveIndex(1));
    assert After(steps).In(1, Emptied);
    steps := Extend(steps, InsertSession(2, 0));
    steps := Extend(steps, InsertIndex(2));
    steps := Extend(steps, DropKey(1));
  }

  lemma NoSteps()
    ensures Feasible([]) && After([]) == INITIAL
  {
  }
}
