/** Which reactions there are, and who may react, read off the steps of the run. */
module ReactionHistory {
  import opened Ids
  import opened Wrappers
  import opened Store
  import S = Store
  import M = MessageHistory
  import opened Reactions

  /** The steps of the other handlers. */
  function Others(steps: seq<Step>): seq<Op> {
    if steps == [] then []
    else
      var before, step := Others(steps[..|steps| - 1]), steps[|steps| - 1];
      if step.Other? then before + [step.op] else before
  }

  /** Reactions leave the message store alone. */
  lemma {:induction false} StoreIsOthers(steps: seq<Step>)
    requires LegalSteps(steps)
    ensures S.LegalRun(Others(steps)) && Reach(steps).store == S.Run(Others(steps))
  {
    if steps == [] {
    } else {
      hide S.Next, S.Legal, Guard, Without;
      var before, step := steps[..|steps| - 1], steps[|steps| - 1];
      StoreIsOthers(before);
      if step.Other? { assert (Others(before) + [step.op])[..|Others(before)|] == Others(before); }
    }
  }

  /** Reacting, or taking a reaction back, is for members of the message's channel, while the message is
      there and not deleted. */
  lemma ReactionAnswer(steps: seq<Step>, r: Reaction, i: nat)
    requires LegalSteps(steps) && i < |Reach(steps).store.messages| && Reach(steps).store.messages[i].id == r.message
    ensures var m := Reach(steps).store.messages[i];
            Guard(Reach(steps).store, r)
            == if m.deletedAt.Some? then NotFound
               else if M.IsMember(Others(steps), m.channel, r.user) then Done else Forbidden
  {
    hide S.Run, S.LegalRun, Reach, LegalSteps, Others, M.IsMember, Find;
    var st := Reach(steps).store;
    StoreIsOthers(steps);
    RunKeepsInv(Others(steps));
    UniqueFind(st.messages, st.clock, i);
    M.CursorIffMember(Others(steps), st.messages[i].channel, r.user);
  }

  lemma NothingToReactTo(st: Store, r: Reaction)
    requires forall i :: 0 <= i < |st.messages| ==> st.messages[i].id != r.message
    ensures Guard(st, r) == NotFound
  {
  }

  // ---- The reactions.

  predicate Accepted(steps: seq<Step>, i: nat)
    requires i < |steps|
  {
    !steps[i].Other? && Guard(Reach(steps[..i]).store, steps[i].r) == Done
  }

  /** Step `j` reacts, and is accepted, and no accepted step since takes the reaction back. */
  ghost predicate ReactedSince(steps: seq<Step>, j: nat, r: Reaction) {
    && j < |steps| && steps[j] == Add(r) && Accepted(steps, j)
    && forall m :: j < m < |steps| ==> !(steps[m] == Remove(r) && Accepted(steps, m))
  }

  lemma StepReacts(s: System, step: Step, r: Reaction)
    ensures r in Take(s, step).rows <==>
              (step == Add(r) && Guard(s.store, r) == Done)
              || (r in s.rows && !(step == Remove(r) && Guard(s.store, r) == Done))
  {
    hide Guard, S.Next;
  }

  lemma ReactedSinceStep(steps: seq<Step>, j: nat, r: Reaction)
    requires steps != []
    ensures var before, last := steps[..|steps| - 1], |steps| - 1;
            ReactedSince(steps, j, r) <==>
              (j == last && steps[last] == Add(r) && Accepted(steps, last))
              || (ReactedSince(before, j, r) && !(steps[last] == Remove(r) && Accepted(steps, last)))
  {
    hide Guard, Reach;
    var before, last := steps[..|steps| - 1], |steps| - 1;
    forall m | 0 <= m < last ensures Accepted(steps, m) == Accepted(before, m) { assert before[..m] == steps[..m]; }
  }

  lemma NoReactionYet(r: Reaction)
    ensures r !in Reach([]).rows && forall j :: !ReactedSince([], j, r)
  {
  }

  /** The stored reactions are those somebody made and has not taken back. */
  lemma {:induction false} StoredIffReacted(steps: seq<Step>, r: Reaction)
    ensures r in Reach(steps).rows <==> exists j :: ReactedSince(steps, j, r)
  {
    hide Take, Guard, ReactedSince;
    if steps == [] {
      NoReactionYet(r);
    } else {
      var before, last := steps[..|steps| - 1], |steps| - 1;
      StoredIffReacted(before, r);
      StepReacts(Reach(before), steps[last], r);
      ReactedSinceStep(steps, last, r);
      if exists j :: ReactedSince(before, j, r) {
        var j :| ReactedSince(before, j, r);
        ReactedSinceStep(steps, j, r);
      }
      if exists j :: ReactedSince(steps, j, r) {
        var j :| ReactedSince(steps, j, r);
        ReactedSinceStep(steps, j, r);
      }
    }
  }

  /** One more event, which adds or removes `r`. */
  predicate Tells(s: System, s': System, added: bool, r: Reaction) {
    && |s'.emitted| == |s.emitted| + 1
    && s'.emitted[|s.emitted|].r == r && s'.emitted[|s.emitted|].Added? == added
  }

  /** An event is emitted exactly when a step changes the reactions; it says what changed. */
  lemma EventIffChange(s: System, step: Step)
    requires SystemInv(s)
    ensures var s' := Take(s, step);
            && (s'.emitted == s.emitted <==> s'.rows == s.rows)
            && (forall r :: r in s'.rows && r !in s.rows ==> step == Add(r) && Tells(s, s', true, r))
            && (forall r :: r in s.rows && r !in s'.rows ==> step == Remove(r) && Tells(s, s', false, r))
  {
    hide Guard, S.Next, Inv, Rooted;
    match step
    case Add(r) => assert r in (s.rows + [r]);
    case Remove(r) => assert r !in Without(s.rows, r);
    case Other(_) =>
  }
}
