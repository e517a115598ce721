/** The sliding-window limiter that forgets old keys, against the one that remembers everything. */
module RateLimiter {
  import opened Base

  type Key = nat  // compared for equality only

  datatype Limiter = Limiter(attempts: map<Key, seq<int>>, sweepAt: nat)

  datatype Attempt = Attempt(key: Key, time: int)

  datatype Call = Call(key: Key, limit: int, now: int)

  const SWEEP_MIN: nat := 1024

  function Keep(times: seq<int>, cutoff: int): (r: seq<int>)
    ensures |r| <= |times|
  {
    if times == [] then []
    else Keep(times[..|times| - 1], cutoff) + (if times[|times| - 1] > cutoff then [times[|times| - 1]] else [])
  }

  function At(attempts: map<Key, seq<int>>, key: Key): seq<int> {
    if key in attempts then attempts[key] else []
  }

  predicate AnyAfter(times: seq<int>, cutoff: int) {
    exists i :: 0 <= i < |times| && times[i] > cutoff
  }

  function LiveKeys(attempts: map<Key, seq<int>>, cutoff: int): map<Key, seq<int>> {
    map k | k in attempts && AnyAfter(attempts[k], cutoff) :: attempts[k]
  }

  function Cleaned(l: Limiter, window: nat, c: Call): map<Key, seq<int>> {
    l.attempts[c.key := Keep(At(l.attempts, c.key), c.now - window)]
  }

  /** The table just before it answers: the caller's list cleaned, dead keys swept when it is large. */
  function Swept(l: Limiter, window: nat, c: Call, sweeps: bool): map<Key, seq<int>> {
    var cleaned := Cleaned(l, window, c);
    if sweeps && |cleaned| > l.sweepAt then LiveKeys(cleaned, c.now - window) else cleaned
  }

  function Threshold(live: nat): nat {
    if 2 * live > SWEEP_MIN then 2 * live else SWEEP_MIN
  }

  function NextSweep(l: Limiter, window: nat, c: Call, sweeps: bool): nat {
    if sweeps && |Cleaned(l, window, c)| > l.sweepAt then Threshold(|Swept(l, window, c, sweeps)|) else l.sweepAt
  }

  /** One call, with or without the sweep. */
  function IsLimited(l: Limiter, window: nat, c: Call, sweeps: bool): (Limiter, bool) {
    var swept := Swept(l, window, c, sweeps);
    var own := At(swept, c.key);
    var limited := |own| >= c.limit;
    (Limiter(swept[c.key := if limited then own else own + [c.now]], NextSweep(l, window, c, sweeps)), limited)
  }

  // ---------- the reference: a log that is never pruned ----------

  function TimesOf(log: seq<Attempt>, key: Key): seq<int> {
    if log == [] then []
    else TimesOf(log[..|log| - 1], key) + (if log[|log| - 1].key == key then [log[|log| - 1].time] else [])
  }

  /** Limited when the admitted attempts of the last window already make up the limit. */
  function PlainLimited(log: seq<Attempt>, window: nat, c: Call): bool {
    |Keep(TimesOf(log, c.key), c.now - window)| >= c.limit
  }

  function PlainNext(log: seq<Attempt>, window: nat, c: Call): seq<Attempt> {
    if PlainLimited(log, window, c) then log else log + [Attempt(c.key, c.now)]
  }

  function PlainLog(log: seq<Attempt>, window: nat, calls: seq<Call>): seq<Attempt>
    decreases |calls|
  {
    if calls == [] then log else PlainLog(PlainNext(log, window, calls[0]), window, calls[1..])
  }

  function PlainAnswers(log: seq<Attempt>, window: nat, calls: seq<Call>): seq<bool>
    decreases |calls|
  {
    if calls == [] then []
    else [PlainLimited(log, window, calls[0])] + PlainAnswers(PlainNext(log, window, calls[0]), window, calls[1..])
  }

  function Answers(l: Limiter, window: nat, calls: seq<Call>, sweeps: bool): seq<bool>
    decreases |calls|
  {
    if calls == [] then []
    else
      var (m, limited) := IsLimited(l, window, calls[0], sweeps);
      [limited] + Answers(m, window, calls[1..], sweeps)
  }

  function After(l: Limiter, window: nat, calls: seq<Call>): Limiter
    decreases |calls|
  {
    if calls == [] then l else After(IsLimited(l, window, calls[0], true).0, window, calls[1..])
  }

  // ---------- refinement ----------

  /** For every key the limiter remembers the same recent attempts as the log. */
  ghost predicate Agrees(l: Limiter, log: seq<Attempt>, cutoff: int) {
    forall key :: Same(l, log, cutoff, key)
  }

  ghost predicate Same(l: Limiter, log: seq<Attempt>, cutoff: int, key: Key) {
    Keep(At(l.attempts, key), cutoff) == Keep(TimesOf(log, key), cutoff)
  }

  lemma {:induction false} KeepTwice(times: seq<int>, early: int, late: int)
    requires early <= late
    ensures Keep(Keep(times, early), late) == Keep(times, late)
    decreases |times|
  {
    if times != [] {
      var n := |times| - 1;
      KeepTwice(times[..n], early, late);
      if times[n] > early {
        KeepAppend(Keep(times[..n], early), times[n], late);
      } else {
        assert Keep(times, early) == Keep(times[..n], early);
        assert Keep(times, late) == Keep(times[..n], late);
      }
    }
  }

  lemma KeepAppend(times: seq<int>, t: int, cutoff: int)
    ensures Keep(times + [t], cutoff) == Keep(times, cutoff) + (if t > cutoff then [t] else [])
  {
    assert (times + [t])[..|times|] == times;
  }

  lemma {:induction false} KeepNone(times: seq<int>, cutoff: int)
    requires !AnyAfter(times, cutoff)
    ensures Keep(times, cutoff) == []
    decreases |times|
  {
    if times != [] {
      var n := |times| - 1;
      assert !(times[n] > cutoff);
      forall i | 0 <= i < n
        ensures times[..n][i] <= cutoff
      {
        assert times[i] <= cutoff;
      }
      KeepNone(times[..n], cutoff);
    }
  }

  lemma AgreesLater(l: Limiter, log: seq<Attempt>, early: int, late: int)
    requires Agrees(l, log, early) && early <= late
    ensures Agrees(l, log, late)
  {
    forall key
      ensures Same(l, log, late, key)
    {
      assert Same(l, log, early, key);
      KeepTwice(At(l.attempts, key), early, late);
      KeepTwice(TimesOf(log, key), early, late);
    }
  }

  /** A sweep drops a list only when nothing in it is recent. */
  lemma SweepDrops(attempts: map<Key, seq<int>>, cutoff: int, key: Key)
    ensures At(LiveKeys(attempts, cutoff), key) == Dropped(At(attempts, key), cutoff)
  {
  }

  function Dropped(times: seq<int>, cutoff: int): seq<int> {
    if AnyAfter(times, cutoff) then times else []
  }

  lemma DroppedKeeps(times: seq<int>, cutoff: int)
    ensures Keep(Dropped(times, cutoff), cutoff) == Keep(times, cutoff)
  {
    if !AnyAfter(times, cutoff) {
      KeepNone(times, cutoff);
    }
  }

  lemma SweptTimes(times: seq<int>, cutoff: int)
    ensures !AnyAfter(Keep(times, cutoff), cutoff) ==> Keep(times, cutoff) == []
  {
    if !AnyAfter(Keep(times, cutoff), cutoff) {
      KeepNone(Keep(times, cutoff), cutoff);
      KeepTwice(times, cutoff, cutoff);
    }
  }

  /** The caller's own list after a call. */
  lemma OwnAfter(l: Limiter, window: nat, c: Call, sweeps: bool)
    ensures var own := Keep(At(l.attempts, c.key), c.now - window);
            var (m, limited) := IsLimited(l, window, c, sweeps);
            && limited == (|own| >= c.limit)
            && At(m.attempts, c.key) == if limited then own else own + [c.now]
  {
    SweptTimes(At(l.attempts, c.key), c.now - window);
    SweepDrops(Cleaned(l, window, c), c.now - window, c.key);
  }

  /** Anybody else's: as it was, or dropped with nothing recent in it. */
  lemma OthersAfter(l: Limiter, window: nat, c: Call, sweeps: bool, key: Key)
    requires key != c.key
    ensures var times := At(l.attempts, key);
            var after := At(IsLimited(l, window, c, sweeps).0.attempts, key);
            after == times || after == Dropped(times, c.now - window)
  {
    SweepDrops(Cleaned(l, window, c), c.now - window, key);
  }

  lemma OthersKept(l: Limiter, window: nat, c: Call, sweeps: bool, key: Key)
    requires key != c.key
    ensures Keep(At(IsLimited(l, window, c, sweeps).0.attempts, key), c.now - window) ==
            Keep(At(l.attempts, key), c.now - window)
  {
    var times, cutoff := At(l.attempts, key), c.now - window;
    OthersAfter(l, window, c, sweeps, key);
    DroppedKeeps(times, cutoff);
    var after := At(IsLimited(l, window, c, sweeps).0.attempts, key);
    assert Keep(after, cutoff) == Keep(times, cutoff) by {
      assert after == times || after == Dropped(times, cutoff);
    }
  }

  lemma PlainAfter(log: seq<Attempt>, window: nat, c: Call, key: Key)
    ensures TimesOf(PlainNext(log, window, c), key) ==
            if key == c.key && !PlainLimited(log, window, c) then TimesOf(log, key) + [c.now] else TimesOf(log, key)
  {
    LogAppend(log, Attempt(c.key, c.now), key);
  }

  lemma KeptAgain(times: seq<int>, logged: seq<int>, cutoff: int, now: int)
    requires Keep(times, cutoff) == Keep(logged, cutoff)
    ensures Keep(Keep(times, cutoff), cutoff) == Keep(logged, cutoff)
    ensures Keep(Keep(times, cutoff) + [now], cutoff) == Keep(logged + [now], cutoff)
  {
    KeepTwice(times, cutoff, cutoff);
    KeepAppend(Keep(times, cutoff), now, cutoff);
    KeepAppend(logged, now, cutoff);
  }

  /** Two tables agree on a key whose lists keep the same recent times. */
  lemma SameFrom(m: Limiter, next: seq<Attempt>, cutoff: int, key: Key, a: seq<int>, b: seq<int>)
    requires At(m.attempts, key) == a && TimesOf(next, key) == b && Keep(a, cutoff) == Keep(b, cutoff)
    ensures Same(m, next, cutoff, key)
  {
  }

  lemma SameLimit(l: Limiter, log: seq<Attempt>, window: nat, c: Call, sweeps: bool)
    requires Same(l, log, c.now - window, c.key)
    ensures IsLimited(l, window, c, sweeps).1 == PlainLimited(log, window, c)
  {
    OwnAfter(l, window, c, sweeps);
  }

  /** The caller's list, cleaned, and the log's, each with the same attempt added or none. */
  lemma OwnSame(m: Limiter, next: seq<Attempt>, cutoff: int, key: Key, times: seq<int>, logged: seq<int>,
                added: Option<int>)
    requires Keep(times, cutoff) == Keep(logged, cutoff)
    requires At(m.attempts, key) == if added.Some? then Keep(times, cutoff) + [added.value] else Keep(times, cutoff)
    requires TimesOf(next, key) == if added.Some? then logged + [added.value] else logged
    ensures Same(m, next, cutoff, key)
  {
    KeptAgain(times, logged, cutoff, if added.Some? then added.value else 0);
  }

  lemma SameAnswer(l: Limiter, log: seq<Attempt>, window: nat, c: Call, sweeps: bool)
    requires Same(l, log, c.now - window, c.key)
    ensures IsLimited(l, window, c, sweeps).1 == PlainLimited(log, window, c)
    ensures Same(IsLimited(l, window, c, sweeps).0, PlainNext(log, window, c), c.now - window, c.key)
  {
    SameLimit(l, log, window, c, sweeps);
    OwnAfter(l, window, c, sweeps);
    PlainAfter(log, window, c, c.key);
    OwnSame(IsLimited(l, window, c, sweeps).0, PlainNext(log, window, c), c.now - window, c.key,
            At(l.attempts, c.key), TimesOf(log, c.key), if PlainLimited(log, window, c) then None else Some(c.now));
  }

  lemma OthersSame(l: Limiter, log: seq<Attempt>, window: nat, c: Call, sweeps: bool, key: Key)
    requires Same(l, log, c.now - window, key) && key != c.key
    ensures Same(IsLimited(l, window, c, sweeps).0, PlainNext(log, window, c), c.now - window, key)
  {
    var m, next := IsLimited(l, window, c, sweeps).0, PlainNext(log, window, c);
    OthersKept(l, window, c, sweeps, key);
    PlainAfter(log, window, c, key);
    SameFrom(m, next, c.now - window, key, At(m.attempts, key), TimesOf(next, key));
  }

  lemma StaysSame(l: Limiter, log: seq<Attempt>, window: nat, c: Call, sweeps: bool, key: Key)
    requires Same(l, log, c.now - window, key)
    ensures Same(IsLimited(l, window, c, sweeps).0, PlainNext(log, window, c), c.now - window, key)
  {
    if key == c.key {
      SameAnswer(l, log, window, c, sweeps);
    } else {
      OthersSame(l, log, window, c, sweeps, key);
    }
  }

  lemma CallAgrees(l: Limiter, log: seq<Attempt>, window: nat, c: Call, sweeps: bool)
    requires Agrees(l, log, c.now - window)
    ensures Agrees(IsLimited(l, window, c, sweeps).0, PlainNext(log, window, c), c.now - window)
  {
    var m, next, cutoff := IsLimited(l, window, c, sweeps).0, PlainNext(log, window, c), c.now - window;
    forall key
      ensures Same(m, next, cutoff, key)
    {
      assert Same(l, log, cutoff, key);
      StaysSame(l, log, window, c, sweeps, key);
    }
  }

  lemma LogAppend(log: seq<Attempt>, a: Attempt, key: Key)
    ensures a.key == key ==> TimesOf(log + [a], key) == TimesOf(log, key) + [a.time]
    ensures a.key != key ==> TimesOf(log + [a], key) == TimesOf(log, key)
  {
    assert (log + [a])[..|log|] == log;
  }

  ghost predicate Clocked(calls: seq<Call>) {
    forall i, j | 0 <= i <= j < |calls| :: calls[i].now <= calls[j].now
  }

  /** After one call the two agree again for the next one. */
  lemma AgreesNext(l: Limiter, log: seq<Attempt>, window: nat, calls: seq<Call>, sweeps: bool)
    requires Clocked(calls) && calls != [] && Agrees(l, log, calls[0].now - window)
    ensures Clocked(calls[1..])
    ensures |calls| > 1 ==>
              Agrees(IsLimited(l, window, calls[0], sweeps).0, PlainNext(log, window, calls[0]), calls[1].now - window)
  {
    CallAgrees(l, log, window, calls[0], sweeps);
    if |calls| > 1 {
      AgreesLater(IsLimited(l, window, calls[0], sweeps).0, PlainNext(log, window, calls[0]),
                  calls[0].now - window, calls[1].now - window);
    }
  }

  /**
   REFINEMENT: over every sequence of calls on a clock that does not run back, the limiter that
   sweeps, the one that does not, and the reference that keeps every attempt answer alike.
   */
  lemma {:induction false} SweepingChangesNothing(l: Limiter, log: seq<Attempt>, window: nat, calls: seq<Call>,
                                                  sweeps: bool)
    requires Clocked(calls) && (calls != [] ==> Agrees(l, log, calls[0].now - window))
    ensures Answers(l, window, calls, sweeps) == PlainAnswers(log, window, calls)
    decreases |calls|
  {
    if calls != [] {
      SameAnswerNow(l, log, window, calls[0], sweeps);
      AgreesNext(l, log, window, calls, sweeps);
      SweepingChangesNothing(IsLimited(l, window, calls[0], sweeps).0, PlainNext(log, window, calls[0]), window,
                             calls[1..], sweeps);
    }
  }

  lemma SameAnswerNow(l: Limiter, log: seq<Attempt>, window: nat, c: Call, sweeps: bool)
    requires Agrees(l, log, c.now - window)
    ensures IsLimited(l, window, c, sweeps).1 == PlainLimited(log, window, c)
  {
    assert Same(l, log, c.now - window, c.key);
    SameAnswer(l, log, window, c, sweeps);
  }

  lemma FreshAgrees(cutoff: int)
    ensures Agrees(Limiter(map[], SWEEP_MIN), [], cutoff)
  {
  }

  // ---------- the limit ----------

  ghost function CountIn(times: seq<int>, a: int, b: int): nat {
    if times == [] then 0
    else CountIn(times[..|times| - 1], a, b) + (if a <= times[|times| - 1] < b then 1 else 0)
  }

  lemma {:induction false} CountInKept(times: seq<int>, a: int, b: int, cutoff: int)
    requires cutoff < a
    ensures CountIn(times, a, b) <= |Keep(times, cutoff)|
    decreases |times|
  {
    if times != [] {
      CountInKept(times[..|times| - 1], a, b, cutoff);
    }
  }

  ghost function InStretch(log: seq<Attempt>, key: Key, a: int, window: nat): nat {
    CountIn(TimesOf(log, key), a, a + window)
  }

  /** No stretch [a, a + window) of the log holds more than `limit` attempts of the key. */
  ghost predicate Spaced(log: seq<Attempt>, window: nat, key: Key, limit: nat) {
    forall a: int :: InStretch(log, key, a, window) <= limit
  }

  lemma CountAppend(times: seq<int>, t: int, a: int, b: int)
    ensures CountIn(times + [t], a, b) == CountIn(times, a, b) + (if a <= t < b then 1 else 0)
  {
    assert (times + [t])[..|times|] == times;
  }

  lemma NextSpaced(log: seq<Attempt>, window: nat, c: Call, key: Key, limit: nat)
    requires Spaced(log, window, key, limit) && (c.key == key ==> c.limit == limit)
    ensures Spaced(PlainNext(log, window, c), window, key, limit)
  {
    var next := PlainNext(log, window, c);
    if next != log {
      LogAppend(log, Attempt(c.key, c.now), key);
      forall a: int
        ensures InStretch(next, key, a, window) <= limit
      {
        assert InStretch(log, key, a, window) <= limit;
        if c.key == key {
          CountAppend(TimesOf(log, key), c.now, a, a + window);
          if a <= c.now < a + window {
            CountInKept(TimesOf(log, key), a, a + window, c.now - window);
          }
        }
      }
    }
  }

  /** THE LIMIT: over every run, no half-open window holds more admitted attempts than allowed. */
  lemma {:induction false} NeverOverLimit(log: seq<Attempt>, window: nat, calls: seq<Call>, key: Key, limit: nat)
    requires Spaced(log, window, key, limit)
    requires forall i | 0 <= i < |calls| && calls[i].key == key :: calls[i].limit == limit
    ensures Spaced(PlainLog(log, window, calls), window, key, limit)
    decreases |calls|
  {
    if calls != [] {
      NextSpaced(log, window, calls[0], key, limit);
      NeverOverLimit(PlainNext(log, window, calls[0]), window, calls[1..], key, limit);
    }
  }

  /** The attempts a run lets through. */
  function Admitted(calls: seq<Call>, answers: seq<bool>): seq<Attempt>
    requires |calls| == |answers|
    decreases |calls|
  {
    if calls == [] then []
    else (if answers[0] then [] else [Attempt(calls[0].key, calls[0].now)]) + Admitted(calls[1..], answers[1..])
  }

  lemma {:induction false} LogIsAdmitted(log: seq<Attempt>, window: nat, calls: seq<Call>)
    ensures |PlainAnswers(log, window, calls)| == |calls|
    ensures PlainLog(log, window, calls) == log + Admitted(calls, PlainAnswers(log, window, calls))
    decreases |calls|
  {
    if calls != [] {
      var next := PlainNext(log, window, calls[0]);
      LogIsAdmitted(next, window, calls[1..]);
      var answers := PlainAnswers(log, window, calls);
      assert answers[1..] == PlainAnswers(next, window, calls[1..]);
    }
  }

  /** The sweeping limiter, from empty: what it admits of a key never exceeds the limit in any window. */
  lemma AdmitsWithinLimit(window: nat, calls: seq<Call>, key: Key, limit: nat)
    requires Clocked(calls)
    requires forall i | 0 <= i < |calls| && calls[i].key == key :: calls[i].limit == limit
    ensures var answers := Answers(Limiter(map[], SWEEP_MIN), window, calls, true);
            |answers| == |calls| && Spaced(Admitted(calls, answers), window, key, limit)
  {
    var l := Limiter(map[], SWEEP_MIN);
    if calls != [] {
      FreshAgrees(calls[0].now - window);
    }
    SweepingChangesNothing(l, [], window, calls, true);
    LogIsAdmitted([], window, calls);
    assert Spaced([], window, key, limit);
    NeverOverLimit([], window, calls, key, limit);
    assert [] + Admitted(calls, PlainAnswers([], window, calls)) == Admitted(calls, PlainAnswers([], window, calls));
  }

  /** The attempts of the key after the cutoff. */
  ghost function CountAfter(log: seq<Attempt>, key: Key, cutoff: int): nat {
    if log == [] then 0
    else
      var last := log[|log| - 1];
      CountAfter(log[..|log| - 1], key, cutoff) + if last.key == key && last.time > cutoff then 1 else 0
  }

  lemma {:induction false} KeptIsCount(log: seq<Attempt>, key: Key, cutoff: int)
    ensures |Keep(TimesOf(log, key), cutoff)| == CountAfter(log, key, cutoff)
    decreases |log|
  {
    if log != [] {
      var n := |log| - 1;
      KeptIsCount(log[..n], key, cutoff);
      assert log == log[..n] + [log[n]];
      LogAppend(log[..n], log[n], key);
      KeepAppend(TimesOf(log[..n], key), log[n].time, cutoff);
    }
  }

  /** The log a call adds to, with the rest of the run's attempts behind it. */
  lemma AdmittedNext(log: seq<Attempt>, window: nat, calls: seq<Call>, answers: seq<bool>)
    requires calls != [] && |calls| == |answers| && answers[0] == PlainLimited(log, window, calls[0])
    ensures PlainNext(log, window, calls[0]) + Admitted(calls[1..], answers[1..]) == log + Admitted(calls, answers)
  {
  }

  lemma TailAnswers(log: seq<Attempt>, window: nat, calls: seq<Call>)
    requires calls != []
    ensures var answers := PlainAnswers(log, window, calls);
            && |answers| > 0 && answers[0] == PlainLimited(log, window, calls[0])
            && answers[1..] == PlainAnswers(PlainNext(log, window, calls[0]), window, calls[1..])
  {
  }

  lemma FirstsOfTail<T>(s: seq<T>, n: nat)
    requires 0 < n <= |s|
    ensures s[..n][0] == s[0] && s[..n][1..] == s[1..][..n - 1]
  {
  }

  lemma {:induction false} AnswerAt(log: seq<Attempt>, window: nat, calls: seq<Call>, answers: seq<bool>, n: nat)
    requires n < |calls| == |answers| && answers == PlainAnswers(log, window, calls)
    ensures answers[n] == PlainLimited(log + Admitted(calls[..n], answers[..n]), window, calls[n])
    decreases |calls|
  {
    TailAnswers(log, window, calls);
    if n == 0 {
      assert log + Admitted(calls[..0], answers[..0]) == log;
    } else {
      FirstsOfTail(calls, n);
      FirstsOfTail(answers, n);
      AnswerAt(PlainNext(log, window, calls[0]), window, calls[1..], answers[1..], n - 1);
      AdmittedNext(log, window, calls[..n], answers[..n]);
    }
  }

  lemma PlainRefuses(window: nat, calls: seq<Call>, answers: seq<bool>, n: nat)
    requires n < |calls| == |answers| && answers == PlainAnswers([], window, calls)
    ensures var c := calls[n];
            answers[n] <==> CountAfter(Admitted(calls[..n], answers[..n]), c.key, c.now - window) >= c.limit
  {
    var log := Admitted(calls[..n], answers[..n]);
    AnswerAt([], window, calls, answers, n);
    assert [] + log == log;
    KeptIsCount(log, calls[n].key, calls[n].now - window);
  }

  /**
   REFUSED EXACTLY WHEN FULL: over every run from empty, the sweeping limiter refuses a call if and only if
   as many calls of its key as the limit were let through less than a window ago.
   */
  lemma RefusedExactly(window: nat, calls: seq<Call>, n: nat)
    requires Clocked(calls) && n < |calls|
    ensures var answers, c := Answers(Limiter(map[], SWEEP_MIN), window, calls, true), calls[n];
            && |answers| == |calls|
            && (answers[n] <==>
                CountAfter(Admitted(calls[..n], answers[..n]), c.key, c.now - window) >= c.limit)
  {
    FreshAgrees(calls[0].now - window);
    SweepingChangesNothing(Limiter(map[], SWEEP_MIN), [], window, calls, true);
    LogIsAdmitted([], window, calls);
    PlainRefuses(window, calls, PlainAnswers([], window, calls), n);
  }

  // ---------- memory ----------

  /** The keys with an attempt less than a window before this call. */
  function LiveAt(l: Limiter, window: nat, c: Call): nat {
    |set k | k in l.attempts && AnyAfter(l.attempts[k], c.now - window)|
  }

  lemma LiveIsSwept(l: Limiter, window: nat, c: Call)
    ensures |LiveKeys(Cleaned(l, window, c), c.now - window)| == LiveAt(l, window, c)
  {
    var cutoff := c.now - window;
    var cleaned := Cleaned(l, window, c);
    KeepsAny(At(l.attempts, c.key), cutoff);
    assert !AnyAfter([], cutoff);
    SameLive(cleaned, l.attempts, c.key, cutoff);
  }

  /** Tables that differ in one list, live in both or in neither, have as many live keys. */
  lemma SameLive(a: map<Key, seq<int>>, b: map<Key, seq<int>>, key: Key, cutoff: int)
    requires forall k | k != key :: (k in a <==> k in b) && (k in a ==> a[k] == b[k])
    requires key in a && (AnyAfter(a[key], cutoff) <==> key in b && AnyAfter(b[key], cutoff))
    ensures |LiveKeys(a, cutoff)| == |set k | k in b && AnyAfter(b[k], cutoff)|
  {
    var live := LiveKeys(a, cutoff);
    assert live.Keys == set k | k in b && AnyAfter(b[k], cutoff);
    assert |live| == |live.Keys|;
  }

  lemma {:induction false} KeepsAny(times: seq<int>, cutoff: int)
    ensures AnyAfter(Keep(times, cutoff), cutoff) <==> AnyAfter(times, cutoff)
    decreases |times|
  {
    if times != [] {
      var n := |times| - 1;
      KeepsAny(times[..n], cutoff);
      assert times == times[..n] + [times[n]];
      AnyAppend(times[..n], times[n], cutoff);
      if times[n] > cutoff {
        AnyAppend(Keep(times[..n], cutoff), times[n], cutoff);
      } else {
        assert Keep(times, cutoff) == Keep(times[..n], cutoff);
      }
    }
  }

  lemma AnyAppend(times: seq<int>, t: int, cutoff: int)
    ensures AnyAfter(times + [t], cutoff) <==> AnyAfter(times, cutoff) || t > cutoff
  {
    var longer := times + [t];
    if AnyAfter(times, cutoff) {
      var i :| 0 <= i < |times| && times[i] > cutoff;
      assert longer[i] > cutoff;
    }
    assert longer[|times|] == t;
  }

  /** Twice the live keys, or 1024 if that is more. */
  ghost predicate Doubles(sweepAt: nat, live: nat) {
    sweepAt >= 2 * live && sweepAt >= 1024 && (sweepAt == 2 * live || sweepAt == 1024)
  }

  /** The threshold is the one the run started with, or was set by a sweep at one of its calls. */
  ghost predicate SetInRun(l: Limiter, window: nat, calls: seq<Call>, sweepAt: nat) {
    sweepAt == l.sweepAt || exists i :: 0 <= i < |calls| && Doubles(sweepAt, LiveIn(l, window, calls, i))
  }

  /** The live keys at the `i`-th call of the run. */
  function LiveIn(l: Limiter, window: nat, calls: seq<Call>, i: nat): nat
    requires i < |calls|
  {
    LiveAt(After(l, window, calls[..i]), window, calls[i])
  }

  lemma LiveLater(l: Limiter, window: nat, calls: seq<Call>, i: nat)
    requires i + 1 < |calls|
    ensures LiveIn(l, window, calls, i + 1) == LiveIn(IsLimited(l, window, calls[0], true).0, window, calls[1..], i)
  {
    assert calls[..i + 1][0] == calls[0] && calls[..i + 1][1..] == calls[1..][..i];
  }

  /**
   BOUNDED MEMORY: after every run there are at most `sweepAt` keys, and `sweepAt` is its starting value
   or max(1024, twice the keys live at some call of the run).
   */
  lemma {:induction false} MemoryBounded(l: Limiter, window: nat, calls: seq<Call>)
    requires |l.attempts| <= l.sweepAt && SWEEP_MIN <= l.sweepAt
    ensures var m := After(l, window, calls);
            |m.attempts| <= m.sweepAt && SWEEP_MIN <= m.sweepAt && SetInRun(l, window, calls, m.sweepAt)
    decreases |calls|
  {
    if calls != [] {
      var k := IsLimited(l, window, calls[0], true).0;
      var m := After(l, window, calls);
      CallBounded(l, window, calls[0]);
      MemoryBounded(k, window, calls[1..]);
      if m.sweepAt == k.sweepAt {
        assert calls[..0] == [];
        assert k.sweepAt == l.sweepAt || Doubles(k.sweepAt, LiveIn(l, window, calls, 0));
      } else {
        var i :| 0 <= i < |calls[1..]| && Doubles(m.sweepAt, LiveIn(k, window, calls[1..], i));
        LiveLater(l, window, calls, i);
      }
    }
  }

  lemma InsertSize(m: map<Key, seq<int>>, k: Key, v: seq<int>)
    ensures |m[k := v]| <= |m| + 1
    ensures k in m ==> |m[k := v]| == |m|
  {
    assert m[k := v].Keys == m.Keys + {k};
    assert |m[k := v]| == |m[k := v].Keys| && |m| == |m.Keys|;
    if k in m {
      assert m.Keys + {k} == m.Keys;
    }
  }

  lemma CallBounded(l: Limiter, window: nat, c: Call)
    requires |l.attempts| <= l.sweepAt && SWEEP_MIN <= l.sweepAt
    ensures var m := IsLimited(l, window, c, true).0;
            && |m.attempts| <= m.sweepAt && SWEEP_MIN <= m.sweepAt
            && (m.sweepAt == l.sweepAt || Doubles(m.sweepAt, LiveAt(l, window, c)))
  {
    LiveIsSwept(l, window, c);
    var swept := Swept(l, window, c, true);
    var own := At(swept, c.key);
    InsertSize(l.attempts, c.key, Keep(At(l.attempts, c.key), c.now - window));
    InsertSize(swept, c.key, own);
    InsertSize(swept, c.key, own + [c.now]);
  }

  // ---------- the object ----------

  class LoginRateLimiter {
    const window: nat
    var attempts: map<Key, seq<int>>
    var sweepAt: nat

    constructor (window: nat)
      ensures this.window == window && Value() == Limiter(map[], SWEEP_MIN)
    {
      this.window := window;
      attempts, sweepAt := map[], SWEEP_MIN;
    }

    function Value(): Limiter
      reads this
    {
      Limiter(attempts, sweepAt)
    }

    method Limited(key: Key, limit: int, now: int) returns (limited: bool)
      modifies this
      ensures (Value(), limited) == IsLimited(old(Value()), window, Call(key, limit, now), true)
    {
      ghost var l, c := Value(), Call(key, limit, now);
      var cutoff := now - window;
      attempts := attempts[key := Keep(At(attempts, key), cutoff)];
      assert attempts == Cleaned(l, window, c);
      if |attempts| > sweepAt {
        attempts := LiveKeys(attempts, cutoff);
        sweepAt := Threshold(|attempts|);
      }
      assert Value() == Limiter(Swept(l, window, c, true), NextSweep(l, window, c, true));
      if |At(attempts, key)| >= limit {
        attempts := attempts[key := At(attempts, key)];
        return true;
      }
      attempts := attempts[key := At(attempts, key) + [now]];
      return false;
    }
  }
}
