/**
 The org-wide kill switch: pause copying, flatten, and put copying back by a compare-and-set on
 the settings version, while operators write the same row from another process and any number
 of other kill switches run.

 Each statement is one step. The copier runs on one thread and does not yield between reading
 the setting, pausing it and reading the guard version, so no other kill switch takes a step
 there; operators may write between any two statements.
 */
module KillSwitch {
  import opened Base

  datatype Write =
    | Operator(on: Option<bool>)  // None: some other column of the row
    | Pause(run: nat)
    | Restore(run: nat)

  // `begun` is how many writes there were when the run read the setting; `reached`, whether an attempt
  // to restore got to the database.
  datatype Phase =
    | Begun(was: bool, begun: nat)
    | Paused(was: bool, begun: nat, pausedAt: nat)
    | Guarded(was: bool, begun: nat, pausedAt: nat, guard: nat, tries: nat, reached: bool)
    | Aborted(begun: nat, paused: Option<nat>)

  // `start` and `base` are the setting and the version before the first write of `writes`.
  datatype State = State(start: bool, base: nat, copying: bool, version: nat, writes: seq<Write>,
                         runs: map<nat, Phase>, starting: Option<nat>)

  // How the database answers an attempt to restore: an error may hide a write that happened.
  datatype Reply = Answered | FailedBefore | FailedAfter

  datatype Event =
    | OperatorWrite(on: Option<bool>)
    | Begin(run: nat)
    | PauseWrite(run: nat)
    | ReadGuard(run: nat)
    | Abort(run: nat)
    | TryRestore(run: nat, reply: Reply)

  function Fresh(copying: bool, version: nat): State {
    State(copying, version, copying, version, [], map[], None)
  }

  predicate Enabled(s: State, e: Event) {
    match e
    case OperatorWrite(_) => true
    case Begin(r) => r !in s.runs && s.starting == None
    case PauseWrite(r) => r in s.runs && s.runs[r].Begun?
    case ReadGuard(r) => r in s.runs && s.runs[r].Paused?
    case Abort(r) => r in s.runs && (s.runs[r].Begun? || s.runs[r].Paused?)
    case TryRestore(r, _) =>
      r in s.runs && s.runs[r].Guarded? && s.runs[r].was && s.runs[r].tries < 2 && s.starting == None
  }

  function Written(s: State, w: Write, copying: bool): State {
    s.(writes := s.writes + [w], version := s.version + 1, copying := copying)
  }

  function Next(s: State, e: Event): State
    requires Enabled(s, e)
  {
    match e
    case OperatorWrite(on) => Written(s, Operator(on), if on.Some? then on.value else s.copying)
    case Begin(r) => s.(runs := s.runs[r := Begun(s.copying, |s.writes|)], starting := Some(r))
    case PauseWrite(r) =>
      Written(s, Pause(r), false).(runs := s.runs[r := Paused(s.runs[r].was, s.runs[r].begun, |s.writes|)])
    case ReadGuard(r) =>
      var p := s.runs[r];
      s.(runs := s.runs[r := Guarded(p.was, p.begun, p.pausedAt, s.version, 0, false)], starting := None)
    case Abort(r) => s.(runs := s.runs[r := Aborted(s.runs[r].begun, PausedAt(s.runs[r]))], starting := None)
    case TryRestore(r, reply) =>
      var p := s.runs[r];
      var t := if reply != FailedBefore && s.version == p.guard then Written(s, Restore(r), true) else s;
      t.(runs := s.runs[r := p.(tries := if reply == Answered then 2 else p.tries + 1,
                                reached := p.reached || reply != FailedBefore)])
  }

  ghost predicate Run(s: State, run: seq<Event>)
    decreases |run|
  {
    run == [] || (Enabled(s, run[0]) && Run(Next(s, run[0]), run[1..]))
  }

  function Exec(s: State, run: seq<Event>): State
    requires Run(s, run)
    decreases |run|
  {
    if run == [] then s else Exec(Next(s, run[0]), run[1..])
  }

  // ---------- what every reachable state keeps ----------

  function PausedAt(p: Phase): Option<nat> {
    if p.Paused? || p.Guarded? then Some(p.pausedAt) else if p.Aborted? then p.paused else None
  }

  predicate Starts(p: Phase) {
    p.Begun? || p.Paused?
  }

  /** Since its pause no operator turned copying on, and the run itself has not restored it. */
  ghost predicate Quiet(s: State, r: nat, at: nat) {
    forall k | at < k < |s.writes| :: s.writes[k] != Operator(Some(true)) && s.writes[k] != Restore(r)
  }

  /** One run: begun, then paused by its own write, then guarded, within the writes there are. */
  ghost predicate RunOk(s: State, r: nat)
    requires r in s.runs
  {
    var p := s.runs[r];
    && p.begun <= |s.writes|
    && (Starts(p) ==> s.starting == Some(r))
    && (PausedAt(p).Some? ==>
          p.begun <= PausedAt(p).value < |s.writes| && s.writes[PausedAt(p).value] == Pause(r))
    && (p.Guarded? ==> s.base + p.pausedAt < p.guard <= s.version)
  }

  ghost predicate Shape(s: State) {
    && s.version == s.base + |s.writes|
    && (s.starting.Some? ==> s.starting.value in s.runs && Starts(s.runs[s.starting.value]))
    && (forall r | r in s.runs :: RunOk(s, r))
  }

  /** A restore was written by a run that found copying on, right at the version it had read. */
  ghost predicate RestoresGuarded(s: State) {
    forall k | 0 <= k < |s.writes| && s.writes[k].Restore? ::
      var r := s.writes[k].run;
      r in s.runs && s.runs[r].Guarded? && s.runs[r].was && s.runs[r].guard == s.base + k
  }

  ghost predicate Held(s: State, r: nat, at: nat) {
    && !s.copying
    && (forall q | q in s.runs && q != r && s.runs[q].Guarded? && s.runs[q].was :: s.runs[q].guard <= s.base + at)
    && (forall q | q in s.runs && q != r && Starts(s.runs[q]) :: !s.runs[q].was)
  }

  ghost predicate Holds(s: State) {
    forall r | r in s.runs && PausedAt(s.runs[r]).Some? ::
      var at := PausedAt(s.runs[r]).value; Quiet(s, r, at) ==> Held(s, r, at)
  }

  /** Where a run's first three statements ended, as far as they got. */
  function GuardEnd(s: State, p: Phase): int {
    if p.Guarded? then p.guard - s.base else if p.Aborted? then 0 else |s.writes|
  }

  /** From reading the setting to reading its guard, only operators and the run's own pause write. */
  ghost predicate Between(s: State, r: nat)
    requires r in s.runs
  {
    forall j | s.runs[r].begun <= j < GuardEnd(s, s.runs[r]) && j < |s.writes| ::
      s.writes[j].Operator? || PausedAt(s.runs[r]) == Some(j)
  }

  ghost predicate Serial(s: State) {
    forall r | r in s.runs :: Between(s, r)
  }

  /** An attempt that got to the database found a write after its guard, or made one; one that did not
      has not restored. */
  ghost predicate AttemptOk(s: State, r: nat)
    requires r in s.runs
  {
    var p := s.runs[r];
    p.Guarded? && s.base <= p.guard ==>
      var g := p.guard - s.base;
      && (p.reached ==> g < |s.writes|)
      && (g < |s.writes| && s.writes[g] == Restore(r) ==> p.reached)
  }

  ghost predicate Attempts(s: State) {
    forall r | r in s.runs :: AttemptOk(s, r)
  }

  /** Of two runs, the second read its guard before the first paused, or began after it. */
  ghost predicate ApartAt(s: State, r: nat, q: nat)
    requires r in s.runs && q in s.runs
  {
    r != q && PausedAt(s.runs[r]).Some? && s.runs[q].Guarded? ==>
      s.runs[q].guard <= s.base + PausedAt(s.runs[r]).value || s.runs[q].begun > PausedAt(s.runs[r]).value
  }

  /** A run still starting began after every pause but its own. */
  ghost predicate BehindAt(s: State, r: nat, q: nat)
    requires r in s.runs && q in s.runs
  {
    r != q && PausedAt(s.runs[r]).Some? && Starts(s.runs[q]) ==> s.runs[q].begun > PausedAt(s.runs[r]).value
  }

  ghost predicate Behind(s: State) {
    forall r, q | r in s.runs && q in s.runs :: BehindAt(s, r, q)
  }

  ghost predicate Apart(s: State) {
    forall r, q | r in s.runs && q in s.runs :: ApartAt(s, r, q)
  }

  /** Something between the pause of `r` and write `end` turned copying on: an operator, or `r` itself. */
  ghost predicate TurnedOn(s: State, r: nat, at: nat, end: nat) {
    exists j :: at < j < end && j < |s.writes| && (s.writes[j] == Operator(Some(true)) || s.writes[j] == Restore(r))
  }

  /** A run that found copying on after another one's pause began after it was turned on. */
  ghost predicate Causes(s: State) {
    forall r, q | r in s.runs && q in s.runs && r != q && PausedAt(s.runs[r]).Some? && !s.runs[q].Aborted?
                  && s.runs[q].was && s.runs[q].begun > PausedAt(s.runs[r]).value ::
      TurnedOn(s, r, PausedAt(s.runs[r]).value, s.runs[q].begun)
  }

  ghost predicate Inv(s: State) {
    && Shape(s) && RestoresGuarded(s) && Serial(s) && Attempts(s)
    && Holds(s) && Behind(s) && Apart(s) && Causes(s)
  }

  lemma WriteKeepsQuiet(s: State, w: Write, copying: bool, r: nat, at: nat)
    requires at < |s.writes| && Quiet(Written(s, w, copying), r, at)
    ensures Quiet(s, r, at) && w != Operator(Some(true)) && w != Restore(r)
  {
    var t := Written(s, w, copying);
    assert forall k | 0 <= k < |s.writes| :: t.writes[k] == s.writes[k];
    assert t.writes[|s.writes|] == w;
  }

  lemma StepKeepsHeld(s: State, e: Event, r: nat)
    requires Shape(s) && Holds(s) && Enabled(s, e)
    requires var t := Next(s, e); r in t.runs && PausedAt(t.runs[r]).Some? && Quiet(t, r, PausedAt(t.runs[r]).value)
    ensures var t := Next(s, e); Held(t, r, PausedAt(t.runs[r]).value)
  {
    var t := Next(s, e);
    var at := PausedAt(t.runs[r]).value;
    if r in s.runs && PausedAt(s.runs[r]) == Some(at) {
      match e {
        case OperatorWrite(on) => WriteKeepsQuiet(s, Operator(on), t.copying, r, at);
        case PauseWrite(q) => WriteKeepsQuiet(s, Pause(q), false, r, at);
        case TryRestore(q, _) =>
          if t.writes != s.writes {
            WriteKeepsQuiet(s, Restore(q), true, r, at);
          }
        case _ =>
      }
      assert Quiet(s, r, at);
      assert Held(s, r, at);
    }
  }

  lemma StepKeepsRun(s: State, e: Event, r: nat)
    requires Enabled(s, e) && s.version == s.base + |s.writes| && r in Next(s, e).runs
    requires r in s.runs ==> RunOk(s, r)
    requires forall q | q in s.runs && Starts(s.runs[q]) :: s.starting == Some(q)
    ensures RunOk(Next(s, e), r)
  {
  }

  lemma StepKeepsShape(s: State, e: Event)
    requires Shape(s) && Enabled(s, e)
    ensures Shape(Next(s, e))
  {
    assert forall q | q in s.runs && Starts(s.runs[q]) :: RunOk(s, q) && s.starting == Some(q);
    forall r | r in Next(s, e).runs
      ensures RunOk(Next(s, e), r)
    {
      StepKeepsRun(s, e, r);
    }
  }

  lemma StepKeepsRestores(s: State, e: Event)
    requires Shape(s) && RestoresGuarded(s) && Enabled(s, e)
    ensures RestoresGuarded(Next(s, e))
  {
  }

  lemma StepKeepsBetween(s: State, e: Event, r: nat)
    requires Enabled(s, e) && s.version == s.base + |s.writes| && r in Next(s, e).runs
    requires r in s.runs ==> RunOk(s, r) && Between(s, r)
    requires forall q | q in s.runs && Starts(s.runs[q]) :: s.starting == Some(q)
    ensures Between(Next(s, e), r)
  {
    var t := Next(s, e);
    assert forall j | 0 <= j < |s.writes| :: t.writes[j] == s.writes[j];
  }

  lemma StepKeepsSerial(s: State, e: Event)
    requires Shape(s) && Serial(s) && Enabled(s, e)
    ensures Serial(Next(s, e))
  {
    assert forall q | q in s.runs && Starts(s.runs[q]) :: RunOk(s, q) && s.starting == Some(q);
    forall r | r in Next(s, e).runs
      ensures Between(Next(s, e), r)
    {
      StepKeepsBetween(s, e, r);
    }
  }

  lemma StepKeepsAttempt(s: State, e: Event, r: nat)
    requires Enabled(s, e) && s.version == s.base + |s.writes| && r in Next(s, e).runs
    requires r in s.runs ==> RunOk(s, r) && AttemptOk(s, r)
    ensures AttemptOk(Next(s, e), r)
  {
    var t := Next(s, e);
    assert forall j | 0 <= j < |s.writes| :: t.writes[j] == s.writes[j];
  }

  lemma StepKeepsAttempts(s: State, e: Event)
    requires Shape(s) && Attempts(s) && Enabled(s, e)
    ensures Attempts(Next(s, e))
  {
    forall r | r in Next(s, e).runs
      ensures AttemptOk(Next(s, e), r)
    {
      assert r in s.runs ==> RunOk(s, r) && AttemptOk(s, r);
      StepKeepsAttempt(s, e, r);
    }
  }

  lemma StepKeepsApartAt(s: State, e: Event, r: nat, q: nat)
    requires Enabled(s, e) && s.version == s.base + |s.writes| && r in Next(s, e).runs && q in Next(s, e).runs
    requires r in s.runs ==> RunOk(s, r)
    requires q in s.runs ==> RunOk(s, q)
    requires r in s.runs && q in s.runs ==> ApartAt(s, r, q)
    requires r in s.runs && q in s.runs && Starts(s.runs[q]) && PausedAt(s.runs[r]).Some? && r != q ==>
               s.runs[q].begun > PausedAt(s.runs[r]).value
    ensures ApartAt(Next(s, e), r, q)
  {
  }

  lemma StepKeepsApart(s: State, e: Event)
    requires Shape(s) && Apart(s) && Behind(s) && Enabled(s, e)
    ensures Apart(Next(s, e))
  {
    forall r, q | r in Next(s, e).runs && q in Next(s, e).runs
      ensures ApartAt(Next(s, e), r, q)
    {
      assert r in s.runs ==> RunOk(s, r);
      assert q in s.runs ==> RunOk(s, q);
      assert r in s.runs && q in s.runs ==> ApartAt(s, r, q) && BehindAt(s, r, q);
      StepKeepsApartAt(s, e, r, q);
    }
  }

  lemma StepKeepsBehind(s: State, e: Event)
    requires Shape(s) && Behind(s) && Enabled(s, e)
    ensures Behind(Next(s, e))
  {
    forall r, q | r in Next(s, e).runs && q in Next(s, e).runs
      ensures BehindAt(Next(s, e), r, q)
    {
      assert r in s.runs ==> RunOk(s, r);
      assert q in s.runs ==> RunOk(s, q);
      assert r in s.runs && q in s.runs ==> BehindAt(s, r, q);
    }
  }

  lemma CauseStays(s: State, e: Event, r: nat, at: nat, end: nat)
    requires Enabled(s, e) && TurnedOn(s, r, at, end)
    ensures TurnedOn(Next(s, e), r, at, end)
  {
    var j :| at < j < end && j < |s.writes| && (s.writes[j] == Operator(Some(true)) || s.writes[j] == Restore(r));
    assert Next(s, e).writes[j] == s.writes[j];
  }

  lemma StepKeepsCause(s: State, e: Event, r: nat, q: nat)
    requires Shape(s) && Holds(s) && Causes(s) && Enabled(s, e) && r != q
    requires var t := Next(s, e);
             && r in t.runs && q in t.runs && PausedAt(t.runs[r]).Some? && !t.runs[q].Aborted?
             && t.runs[q].was && t.runs[q].begun > PausedAt(t.runs[r]).value
    ensures var t := Next(s, e); TurnedOn(t, r, PausedAt(t.runs[r]).value, t.runs[q].begun)
  {
    var t := Next(s, e);
    var at := PausedAt(t.runs[r]).value;
    if e == Begin(q) {
      assert !Quiet(s, r, at);
    } else if e != PauseWrite(r) {
      assert r in s.runs && PausedAt(s.runs[r]) == Some(at);
      CauseStays(s, e, r, at, t.runs[q].begun);
    }
  }

  lemma StepKeepsCauses(s: State, e: Event)
    requires Shape(s) && Holds(s) && Causes(s) && Enabled(s, e)
    ensures Causes(Next(s, e))
  {
    var t := Next(s, e);
    forall r, q | r in t.runs && q in t.runs && r != q && PausedAt(t.runs[r]).Some? && !t.runs[q].Aborted?
                  && t.runs[q].was && t.runs[q].begun > PausedAt(t.runs[r]).value
      ensures TurnedOn(t, r, PausedAt(t.runs[r]).value, t.runs[q].begun)
    {
      StepKeepsCause(s, e, r, q);
    }
  }

  lemma StepKeepsInv(s: State, e: Event)
    requires Inv(s) && Enabled(s, e)
    ensures Inv(Next(s, e))
  {
    StepKeepsShape(s, e);
    StepKeepsRestores(s, e);
    StepKeepsSerial(s, e);
    StepKeepsAttempts(s, e);
    StepKeepsBehind(s, e);
    StepKeepsApart(s, e);
    StepKeepsCauses(s, e);
    var t := Next(s, e);
    forall r | r in t.runs && PausedAt(t.runs[r]).Some? && Quiet(t, r, PausedAt(t.runs[r]).value)
      ensures Held(t, r, PausedAt(t.runs[r]).value)
    {
      StepKeepsHeld(s, e, r);
    }
  }

  lemma {:induction false} RunKeepsInv(s: State, run: seq<Event>)
    requires Inv(s) && Run(s, run)
    ensures Inv(Exec(s, run))
    decreases |run|
  {
    if run != [] {
      StepKeepsInv(s, run[0]);
      RunKeepsInv(Next(s, run[0]), run[1..]);
    }
  }

  /**
   THE SWITCH HOLDS: in every interleaving, from a run's pause on, copying stays off until an
   operator turns it on or that very run restores it; no other kill switch can.
   */
  lemma StaysOff(copying: bool, version: nat, run: seq<Event>, r: nat)
    requires Run(Fresh(copying, version), run)
    ensures var s := Exec(Fresh(copying, version), run);
            r in s.runs && PausedAt(s.runs[r]).Some? && Quiet(s, r, PausedAt(s.runs[r]).value) ==>
            && !s.copying
            && forall k | PausedAt(s.runs[r]).value <= k < |s.writes| :: !s.writes[k].Restore?
  {
    RunKeepsInv(Fresh(copying, version), run);
    QuietMeansOff(Exec(Fresh(copying, version), run), r);
  }

  lemma QuietMeansOff(s: State, r: nat)
    requires Shape(s) && RestoresGuarded(s) && Holds(s)
    ensures r in s.runs && PausedAt(s.runs[r]).Some? && Quiet(s, r, PausedAt(s.runs[r]).value) ==>
            !s.copying && forall k | PausedAt(s.runs[r]).value <= k < |s.writes| :: !s.writes[k].Restore?
  {
    if r in s.runs && PausedAt(s.runs[r]).Some? && Quiet(s, r, PausedAt(s.runs[r]).value) {
      var at := PausedAt(s.runs[r]).value;
      assert Held(s, r, at) && s.writes[at] == Pause(r);
    }
  }

  /**
   WHO MAY TURN IT ON AGAIN: in every interleaving, another run's restore after the pause of `r` has an
   operator's on-write, or the restore of `r` itself, between that pause and that other run's beginning.
   */
  lemma OthersRestoreOnlyAfter(copying: bool, version: nat, run: seq<Event>, r: nat, k: nat)
    requires Run(Fresh(copying, version), run)
    ensures var s := Exec(Fresh(copying, version), run);
            r in s.runs && PausedAt(s.runs[r]).Some? && PausedAt(s.runs[r]).value < k < |s.writes|
            && s.writes[k].Restore? && s.writes[k].run != r ==>
            var at, q := PausedAt(s.runs[r]).value, s.writes[k].run;
            q in s.runs && at < s.runs[q].begun <= k && TurnedOn(s, r, at, s.runs[q].begun)
  {
    RunKeepsInv(Fresh(copying, version), run);
    var s := Exec(Fresh(copying, version), run);
    if r in s.runs && PausedAt(s.runs[r]).Some? && PausedAt(s.runs[r]).value < k < |s.writes|
       && s.writes[k].Restore? && s.writes[k].run != r {
      RestoreHasCause(s, r, k);
    }
  }

  lemma RestoreHasCause(s: State, r: nat, k: nat)
    requires Shape(s) && RestoresGuarded(s) && Apart(s) && Causes(s)
    requires r in s.runs && PausedAt(s.runs[r]).Some? && PausedAt(s.runs[r]).value < k < |s.writes|
    requires s.writes[k].Restore? && s.writes[k].run != r
    ensures var at, q := PausedAt(s.runs[r]).value, s.writes[k].run;
            q in s.runs && at < s.runs[q].begun <= k && TurnedOn(s, r, at, s.runs[q].begun)
  {
    var q := s.writes[k].run;
    assert s.runs[q].Guarded? && s.runs[q].was && s.runs[q].guard == s.base + k;
    assert RunOk(s, q) && ApartAt(s, r, q);
  }

  /**
   A FAILED GUARD READ: a run whose guard read fails after its pause is over; it never restores, and
   copying stays off, whatever it had found, until an operator turns it on.
   */
  lemma AbortLeavesOff(copying: bool, version: nat, run: seq<Event>, r: nat)
    requires Run(Fresh(copying, version), run)
    ensures var s := Exec(Fresh(copying, version), run);
            r in s.runs && s.runs[r].Aborted? && s.runs[r].paused.Some? ==>
            && (forall k | 0 <= k < |s.writes| :: s.writes[k] != Restore(r))
            && ((forall k | s.runs[r].paused.value < k < |s.writes| :: s.writes[k] != Operator(Some(true))) ==>
                  !s.copying)
  {
    RunKeepsInv(Fresh(copying, version), run);
    QuietMeansOff(Exec(Fresh(copying, version), run), r);
  }

  /** Such a run, and one that fails before its pause: nothing stands in the way of either. */
  lemma FailsEitherSide(copying: bool, version: nat, r: nat)
    ensures var s := Fresh(copying, version);
            && Run(s, [Begin(r), Abort(r)]) && Exec(s, [Begin(r), Abort(r)]).copying == copying
            && Run(s, [Begin(r), PauseWrite(r), Abort(r)]) && !Exec(s, [Begin(r), PauseWrite(r), Abort(r)]).copying
  {
    var s := Fresh(copying, version);
    var b := Next(s, Begin(r));
    assert [Begin(r), Abort(r)][1..] == [Abort(r)];
    assert [Begin(r), PauseWrite(r), Abort(r)][1..] == [PauseWrite(r), Abort(r)];
    assert [PauseWrite(r), Abort(r)][1..] == [Abort(r)];
    LastStep(b, Abort(r));
    LastStep(Next(b, PauseWrite(r)), Abort(r));
  }

  // ---------- attempts ----------

  /** How often the run tries to restore. */
  ghost function Tried(run: seq<Event>, r: nat): nat {
    if run == [] then 0 else (if run[0].TryRestore? && run[0].run == r then 1 else 0) + Tried(run[1..], r)
  }

  /** How often it still may. */
  ghost function TriesLeft(s: State, r: nat): int {
    if r in s.runs && s.runs[r].Guarded? then 2 - s.runs[r].tries
    else if r in s.runs && s.runs[r].Aborted? then 0 else 2
  }

  lemma {:induction false} TriedWithin(s: State, run: seq<Event>, r: nat)
    requires Run(s, run) && TriesLeft(s, r) >= 0
    ensures Tried(run, r) <= TriesLeft(s, r)
    decreases |run|
  {
    if run != [] {
      TriedWithin(Next(s, run[0]), run[1..], r);
    }
  }

  /** TWO ATTEMPTS, the second only after an error: over every run a kill switch tries to restore at most twice,
      and not again once it was answered; after an error on its first attempt it may try again. */
  lemma AtMostTwoAttempts(copying: bool, version: nat, before: seq<Event>, e: Event, after: seq<Event>)
    requires Run(Fresh(copying, version), before + ([e] + after)) && e.TryRestore?
    ensures Tried(before + ([e] + after), e.run) <= 2
    ensures e.reply == Answered ==> Tried(after, e.run) == 0
    ensures Run(Fresh(copying, version), before + [e])
    ensures e.reply != Answered && Tried(before, e.run) == 0 ==>
              Enabled(Exec(Fresh(copying, version), before + [e]), TryRestore(e.run, Answered))
  {
    var s := Fresh(copying, version);
    TriedWithin(s, before + ([e] + after), e.run);
    Split(s, before, [e] + after);
    var t := Exec(s, before);
    assert ([e] + after)[0] == e && ([e] + after)[1..] == after;
    TriesStay(s, before, e.run);
    TriedWithin(Next(t, e), after, e.run);
    LastStep(t, e);
    Join(s, before, [e]);
  }

  lemma {:induction false} TriesStay(s: State, run: seq<Event>, r: nat)
    requires Run(s, run) && 0 <= TriesLeft(s, r)
    ensures 0 <= TriesLeft(Exec(s, run), r) && TriesLeft(Exec(s, run), r) <= TriesLeft(s, r)
    ensures Tried(run, r) == 0 && r in Exec(s, run).runs && Exec(s, run).runs[r].Guarded? ==>
              TriesLeft(Exec(s, run), r) == TriesLeft(s, r)
    ensures r in s.runs && s.runs[r].Aborted? ==> r in Exec(s, run).runs && Exec(s, run).runs[r].Aborted?
    decreases |run|
  {
    if run != [] {
      TriesStay(Next(s, run[0]), run[1..], r);
    }
  }

  lemma {:induction false} Join(s: State, a: seq<Event>, b: seq<Event>)
    requires Run(s, a) && Run(Exec(s, a), b)
    ensures Run(s, a + b) && Exec(s, a + b) == Exec(Exec(s, a), b)
    decreases |a|
  {
    if a == [] {
      assert a + b == b;
    } else {
      assert (a + b)[0] == a[0] && (a + b)[1..] == a[1..] + b;
      Join(Next(s, a[0]), a[1..], b);
    }
  }

  /**
   A RESTORE OVERRIDES NO WRITE SINCE ITS GUARD: in every interleaving a restore sits right at
   the version its run read, after that run's own pause, and its run had found copying on.
   */
  lemma RestoresAreSafe(copying: bool, version: nat, run: seq<Event>, k: nat)
    requires Run(Fresh(copying, version), run)
    ensures var s := Exec(Fresh(copying, version), run);
            k < |s.writes| && s.writes[k].Restore? ==>
            var r := s.writes[k].run;
            && r in s.runs && s.runs[r].Guarded? && s.runs[r].was
            && s.runs[r].guard == version + k && s.runs[r].pausedAt < k
            && s.writes[s.runs[r].pausedAt] == Pause(r)
            && forall j | 0 <= j < |s.writes| && s.writes[j] == Restore(r) :: j == k
  {
    RunKeepsInv(Fresh(copying, version), run);
    BaseStays(Fresh(copying, version), run);
    var s := Exec(Fresh(copying, version), run);
    if k < |s.writes| && s.writes[k].Restore? {
      var r := s.writes[k].run;
      assert PausedAt(s.runs[r]) == Some(s.runs[r].pausedAt);
    }
  }

  lemma {:induction false} BaseStays(s: State, run: seq<Event>)
    requires Run(s, run)
    ensures Exec(s, run).base == s.base
    decreases |run|
  {
    if run != [] {
      BaseStays(Next(s, run[0]), run[1..]);
    }
  }

  /**
   WHAT A RESTORE CAN OVERRIDE: reading the setting, the pause and the guard read are three statements. A
   restore overrides operator writes made since the run read the setting if and only if the guard it read
   was not the version its own pause would have left at that reading; and it overrides nobody else's.
   */
  lemma RestoreOverrides(copying: bool, version: nat, run: seq<Event>, k: nat)
    requires Run(Fresh(copying, version), run)
    ensures var s := Exec(Fresh(copying, version), run);
            k < |s.writes| && s.writes[k].Restore? ==>
            var r := s.writes[k].run;
            && r in s.runs && s.runs[r].Guarded? && s.runs[r].begun <= s.runs[r].pausedAt < k
            && (forall j | s.runs[r].begun <= j < k && j != s.runs[r].pausedAt :: s.writes[j].Operator?)
            && ((exists j :: s.runs[r].begun <= j < k && s.writes[j].Operator?) <==>
                s.runs[r].guard != version + s.runs[r].begun + 1)
  {
    RunKeepsInv(Fresh(copying, version), run);
    BaseStays(Fresh(copying, version), run);
    var s := Exec(Fresh(copying, version), run);
    if k < |s.writes| && s.writes[k].Restore? {
      OverridesOperators(s, k);
    }
  }

  lemma OverridesOperators(s: State, k: nat)
    requires Shape(s) && RestoresGuarded(s) && Serial(s) && k < |s.writes| && s.writes[k].Restore?
    ensures var r := s.writes[k].run;
            && r in s.runs && s.runs[r].Guarded? && s.runs[r].begun <= s.runs[r].pausedAt < k
            && (forall j | s.runs[r].begun <= j < k && j != s.runs[r].pausedAt :: s.writes[j].Operator?)
            && ((exists j :: s.runs[r].begun <= j < k && s.writes[j].Operator?) <==>
                s.runs[r].guard != s.base + s.runs[r].begun + 1)
  {
    var r := s.writes[k].run;
    assert RunOk(s, r) && Between(s, r);
    var begun, at := s.runs[r].begun, s.runs[r].pausedAt;
    assert PausedAt(s.runs[r]) == Some(at) && s.writes[at] == Pause(r);
    if begun + 1 < k {
      assert s.writes[if at == begun then begun + 1 else begun].Operator?;
    }
  }

  function EarlyStop(r: nat): seq<Event> {
    [Begin(r), OperatorWrite(Some(false)), PauseWrite(r), ReadGuard(r), TryRestore(r, Answered)]
  }

  /** An operator's STOP that lands between reading the setting and the pause is undone. */
  lemma EarlyStopIsOverridden(version: nat, r: nat)
    ensures Run(Fresh(true, version), EarlyStop(r))
    ensures var s := Exec(Fresh(true, version), EarlyStop(r));
            s.copying && s.writes == [Operator(Some(false)), Pause(r), Restore(r)]
  {
    var run := EarlyStop(r);
    var s0 := Fresh(true, version);
    var s2 := Next(Next(s0, run[0]), run[1]);
    var s4 := Next(Next(s2, run[2]), run[3]);
    assert Next(s4, run[4]).writes == [Operator(Some(false)), Pause(r), Restore(r)];
    FiveSteps(s0, run);
  }

  function OverriddenStop(r: nat): seq<Event> {
    [Begin(r), PauseWrite(r), OperatorWrite(Some(false)), ReadGuard(r), TryRestore(r, Answered)]
  }

  /** An operator's STOP that lands between the pause and the guard read is undone. */
  lemma StopIsOverridden(version: nat, r: nat)
    ensures Run(Fresh(true, version), OverriddenStop(r))
    ensures var s := Exec(Fresh(true, version), OverriddenStop(r));
            s.copying && s.writes == [Pause(r), Operator(Some(false)), Restore(r)]
  {
    var run := OverriddenStop(r);
    var s0 := Fresh(true, version);
    var s2 := Next(Next(s0, run[0]), run[1]);
    var s4 := Next(Next(s2, run[2]), run[3]);
    assert Next(s4, run[4]).writes == [Pause(r), Operator(Some(false)), Restore(r)];
    FiveSteps(s0, run);
  }

  lemma FiveSteps(s: State, run: seq<Event>)
    requires |run| == 5 && Enabled(s, run[0]) && Enabled(Next(s, run[0]), run[1])
    requires var s2 := Next(Next(s, run[0]), run[1]);
             && Enabled(s2, run[2]) && Enabled(Next(s2, run[2]), run[3])
             && Enabled(Next(Next(s2, run[2]), run[3]), run[4])
    ensures Run(s, run)
    ensures var s2 := Next(Next(s, run[0]), run[1]);
            Exec(s, run) == Next(Next(Next(s2, run[2]), run[3]), run[4])
  {
    var s2 := Next(Next(s, run[0]), run[1]);
    var s4 := Next(Next(s2, run[2]), run[3]);
    LastStep(s4, run[4]);
    assert Run(s4, run[2..][2..]) && Exec(s4, run[2..][2..]) == Next(s4, run[4]) by {
      assert run[2..][2..] == [run[4]];
    }
    assert run[2..] == [run[2], run[3]] + run[2..][2..];
    TwoMore(s2, run[2], run[3], run[2..][2..]);
    assert run == [run[0], run[1]] + run[2..];
    TwoMore(s, run[0], run[1], run[2..]);
  }

  lemma LastStep(s: State, e: Event)
    requires Enabled(s, e)
    ensures Run(s, [e]) && Exec(s, [e]) == Next(s, e)
  {
    assert [e][1..] == [];
    assert Run(Next(s, e), []);
  }

  lemma TwoMore(s: State, a: Event, b: Event, rest: seq<Event>)
    requires Enabled(s, a) && Enabled(Next(s, a), b) && Run(Next(Next(s, a), b), rest)
    ensures Run(s, [a, b] + rest) && Exec(s, [a, b] + rest) == Exec(Next(Next(s, a), b), rest)
  {
    assert ([a, b] + rest)[1..] == [b] + rest && ([b] + rest)[1..] == rest;
    assert Run(Next(s, a), [b] + rest);
  }

  // ---------- when copying is put back ----------

  /** Somebody else's write was the first one after the run's guard read. */
  ghost predicate OthersFirst(s: State, r: nat)
    requires r in s.runs && s.runs[r].Guarded? && s.base <= s.runs[r].guard
  {
    var g := s.runs[r].guard - s.base;
    g < |s.writes| && s.writes[g] != Restore(r)
  }

  /**
   WHEN COPYING IS PUT BACK, over every run: a kill switch restores it if and only if it found copying on,
   an attempt of its got to the database, and nobody else wrote first since its guard read.
   */
  lemma PutsBack(copying: bool, version: nat, run: seq<Event>, r: nat)
    requires Run(Fresh(copying, version), run)
    ensures var s := Exec(Fresh(copying, version), run);
            r in s.runs && s.runs[r].Guarded? ==>
            && s.base <= s.runs[r].guard
            && ((exists k :: 0 <= k < |s.writes| && s.writes[k] == Restore(r)) <==>
                s.runs[r].was && s.runs[r].reached && !OthersFirst(s, r))
  {
    RunKeepsInv(Fresh(copying, version), run);
    var s := Exec(Fresh(copying, version), run);
    if r in s.runs && s.runs[r].Guarded? {
      RestoredExactly(s, r);
    }
  }

  lemma RestoredExactly(s: State, r: nat)
    requires Shape(s) && RestoresGuarded(s) && Attempts(s) && r in s.runs && s.runs[r].Guarded?
    ensures s.base <= s.runs[r].guard
    ensures (exists k :: 0 <= k < |s.writes| && s.writes[k] == Restore(r)) <==>
            s.runs[r].was && s.runs[r].reached && !OthersFirst(s, r)
  {
    assert RunOk(s, r) && AttemptOk(s, r);
    var g := s.runs[r].guard - s.base;
    assert forall k | 0 <= k < |s.writes| && s.writes[k] == Restore(r) :: k == g;
  }

  /** No run can restore any more: whoever found copying on has been overtaken. */
  ghost predicate Spent(s: State) {
    && !s.copying
    && (forall r | r in s.runs && Starts(s.runs[r]) :: !s.runs[r].was)
    && (forall r | r in s.runs && s.runs[r].Guarded? && s.runs[r].was :: s.runs[r].guard < s.version)
  }

  /** Then copying is off for good, whatever follows, until an operator turns it on. */
  lemma {:induction false} OffForGood(s: State, run: seq<Event>)
    requires Spent(s) && Run(s, run) && forall i | 0 <= i < |run| :: run[i] != OperatorWrite(Some(true))
    ensures Spent(Exec(s, run))
    decreases |run|
  {
    if run != [] {
      OffForGood(Next(s, run[0]), run[1..]);
    }
  }

  function Overlap(q: nat, r: nat): seq<Event> {
    [Begin(q), PauseWrite(q), ReadGuard(q), Begin(r), PauseWrite(r), ReadGuard(r), TryRestore(q, Answered)]
  }

  /**
   TWO PRESSES: a second kill switch started while the first one flattens leaves copying off for good, with
   no operator write at all: the first is overtaken by the second's pause, and the second found copying off.
   */
  lemma OverlapLeavesOff(version: nat, q: nat, r: nat, rest: seq<Event>)
    requires q != r && Run(Fresh(true, version), Overlap(q, r) + rest)
    requires forall i | 0 <= i < |rest| :: rest[i] != OperatorWrite(Some(true))
    ensures !Exec(Fresh(true, version), Overlap(q, r) + rest).copying
  {
    var s := Fresh(true, version);
    var run := Overlap(q, r) + rest;
    Split(s, Overlap(q, r), rest);
    OverlapSpent(version, q, r);
    OffForGood(Exec(s, Overlap(q, r)), rest);
  }

  lemma OverlapSpent(version: nat, q: nat, r: nat)
    requires q != r
    ensures Run(Fresh(true, version), Overlap(q, r))
    ensures var s := Exec(Fresh(true, version), Overlap(q, r)); Spent(s) && s.writes == [Pause(q), Pause(r)]
  {
    var run := Overlap(q, r);
    var s0 := Fresh(true, version);
    var s3 := Next(Next(Next(s0, run[0]), run[1]), run[2]);
    var s6 := Next(Next(Next(s3, run[3]), run[4]), run[5]);
    FirstPress(s0, q);
    SecondPress(s3, q, r);
    LastStep(s6, run[6]);
    assert run[3..][3..] == [run[6]];
    ThreeMore(s3, run[3..]);
    ThreeMore(s0, run);
  }

  lemma FirstPress(s: State, q: nat)
    requires s == Fresh(true, s.version)
    ensures Enabled(s, Begin(q)) && Enabled(Next(s, Begin(q)), PauseWrite(q))
    ensures Enabled(Next(Next(s, Begin(q)), PauseWrite(q)), ReadGuard(q))
    ensures var t := Next(Next(Next(s, Begin(q)), PauseWrite(q)), ReadGuard(q));
            && t.writes == [Pause(q)] && t.version == s.version + 1 && t.starting == None && !t.copying
            && t.runs == map[q := Guarded(true, 0, 0, s.version + 1, 0, false)]
  {
  }

  lemma SecondPress(s: State, q: nat, r: nat)
    requires s.writes == [Pause(q)] && s.starting == None && !s.copying && q != r
    requires s.runs == map[q := Guarded(true, 0, 0, s.version, 0, false)]
    ensures Enabled(s, Begin(r)) && Enabled(Next(s, Begin(r)), PauseWrite(r))
    ensures Enabled(Next(Next(s, Begin(r)), PauseWrite(r)), ReadGuard(r))
    ensures var t := Next(Next(Next(s, Begin(r)), PauseWrite(r)), ReadGuard(r));
            && Enabled(t, TryRestore(q, Answered))
            && var u := Next(t, TryRestore(q, Answered)); Spent(u) && u.writes == [Pause(q), Pause(r)]
  {
  }

  lemma ThreeMore(s: State, run: seq<Event>)
    requires |run| >= 3 && Enabled(s, run[0]) && Enabled(Next(s, run[0]), run[1])
    requires Enabled(Next(Next(s, run[0]), run[1]), run[2])
    requires Run(Next(Next(Next(s, run[0]), run[1]), run[2]), run[3..])
    ensures Run(s, run) && Exec(s, run) == Exec(Next(Next(Next(s, run[0]), run[1]), run[2]), run[3..])
  {
    var s1 := Next(s, run[0]);
    var s2 := Next(s1, run[1]);
    assert run[2..][1..] == run[3..] && run[1..][1..] == run[2..];
    OneMore(s2, run[2..]);
    OneMore(s1, run[1..]);
    OneMore(s, run);
  }

  lemma OneMore(s: State, run: seq<Event>)
    requires run != [] && Enabled(s, run[0]) && Run(Next(s, run[0]), run[1..])
    ensures Run(s, run) && Exec(s, run) == Exec(Next(s, run[0]), run[1..])
  {
  }

  lemma {:induction false} Split(s: State, a: seq<Event>, b: seq<Event>)
    requires Run(s, a + b)
    ensures Run(s, a) && Run(Exec(s, a), b) && Exec(s, a + b) == Exec(Exec(s, a), b)
    decreases |a|
  {
    if a == [] {
      assert a + b == b;
    } else {
      assert (a + b)[1..] == a[1..] + b;
      Split(Next(s, a[0]), a[1..], b);
    }
  }

  /** The org row, as the statements of one kill switch write it. */
  class OrgRow {
    var copying: bool
    var version: nat

    /** The compare-and-set; `reply` is how the database answers it. */
    method RestoreIfUnchanged(guard: nat, reply: Reply)
      modifies this
      ensures var wrote := reply != FailedBefore && old(version) == guard;
              version == old(version) + (if wrote then 1 else 0) && copying == (old(copying) || wrote)
    {
      if reply != FailedBefore && version == guard {
        copying, version := true, version + 1;
      }
    }

    /** Two attempts, the second only after an error: however the database answers, copying is
        written at most once, and only at the guarded version. */
    method RestoreAfterFlatten(guard: nat, replies: seq<Reply>) returns (failed: bool)
      requires |replies| == 2
      modifies this
      ensures failed <==> replies[0] != Answered && replies[1] != Answered
      ensures var wrote := old(version) == guard && exists i :: 0 <= i < 2 && replies[i] != FailedBefore;
              version == old(version) + (if wrote then 1 else 0) && copying == (old(copying) || wrote)
    {
      var attempt := 0;
      failed := true;
      while attempt < 2
        invariant 0 <= attempt <= 2
        invariant failed && forall i | 0 <= i < attempt :: replies[i] != Answered
        invariant var wrote := old(version) == guard && exists i :: 0 <= i < attempt && replies[i] != FailedBefore;
                  version == old(version) + (if wrote then 1 else 0) && copying == (old(copying) || wrote)
      {
        RestoreIfUnchanged(guard, replies[attempt]);
        if replies[attempt] == Answered {
          return false;
        }
        attempt := attempt + 1;
      }
    }
  }
}
