/**
 How the band of a task moves between two states of any run: it is told from the bookings in between, without the
 function that counts them.
 */
module EngineBands {
  import opened Options
  import opened Ids
  import opened EngineTables
  import opened EngineSteps
  import opened EngineSystem
  import opened EngineInvariant
  import opened EngineRuns
  import opened EngineTheorems

  /** One position up or down, staying at the edge. */
  function Higher(bands: seq<Band>, i: nat): Band
    requires i < |bands|
  {
    if i == |bands| - 1 then bands[i] else bands[i + 1]
  }

  function Lower(bands: seq<Band>, i: nat): Band
    requires i < |bands|
  {
    if i == 0 then bands[0] else bands[i - 1]
  }

  /** None of these passes but the last reaches the threshold of its rule, counting on from `passes`. */
  predicate PassesInARow(bookings: seq<Booking>, passes: int) {
    && bookings != [] && (forall j | 0 <= j < |bookings| :: bookings[j].passed)
    && forall j | 0 <= j < |bookings| - 1 :: passes + j + 1 < bookings[j].rule.raiseAfter
  }

  predicate FailsInARow(bookings: seq<Booking>, fails: int) {
    && bookings != [] && (forall j | 0 <= j < |bookings| :: !bookings[j].passed)
    && forall j | 0 <= j < |bookings| - 1 :: fails + j + 1 < bookings[j].rule.lowerAfter
  }

  predicate HaveBands(bookings: seq<Booking>, bands: seq<Band>) {
    Distinct(bands) && forall j | 0 <= j < |bookings| :: bookings[j].rule.bands == bands
  }

  /** The level after passes in a row: they are counted, a fail before them no longer is, and the last may raise. */
  function Raised(rule: BandRule, i: nat, passes: int): Level
    requires i < |rule.bands|
  {
    if passes < rule.raiseAfter then Level(rule.bands[i], 0, passes) else Level(Higher(rule.bands, i), 0, 0)
  }

  function Lowered(rule: BandRule, i: nat, fails: int): Level
    requires i < |rule.bands|
  {
    if fails < rule.lowerAfter then Level(rule.bands[i], fails, 0) else Level(Lower(rule.bands, i), 0, 0)
  }

  // ----- Counting in a row -----------------------------------------------------------------------------------

  lemma FoldMore(born: Band, before: seq<Booking>, bookings: seq<Booking>)
    requires bookings != []
    ensures var last := bookings[|bookings| - 1];
            var level := Fold(born, before + bookings[..|bookings| - 1]);
            Fold(born, before + bookings)
            == if level.None? then None else Counted(last.rule, level.value, last.passed)
  {
    var all := before + bookings;
    assert all[|all| - 1] == bookings[|bookings| - 1] && all[..|all| - 1] == before + bookings[..|bookings| - 1];
  }

  lemma PlaceOfBand(bands: seq<Band>, i: nat)
    requires Distinct(bands) && i < |bands|
    ensures bands[i] in bands && IndexOf(bands, bands[i]) == i
  {}

  lemma OnePass(rule: BandRule, level: Level, i: nat)
    requires Distinct(rule.bands) && i < |rule.bands| && rule.bands[i] == level.band
    ensures Counted(rule, level, true) == Some(Raised(rule, i, level.passes + 1))
  {
    PlaceOfBand(rule.bands, i);
  }

  lemma OneFail(rule: BandRule, level: Level, i: nat)
    requires Distinct(rule.bands) && i < |rule.bands| && rule.bands[i] == level.band
    ensures Counted(rule, level, false) == Some(Lowered(rule, i, level.fails + 1))
  {
    PlaceOfBand(rule.bands, i);
  }

  lemma {:induction false} PassesCount(born: Band, before: seq<Booking>, bookings: seq<Booking>, level: Level, i: nat,
                                       bands: seq<Band>)
    requires Fold(born, before) == Some(level) && PassesInARow(bookings, level.passes)
    requires HaveBands(bookings, bands) && i < |bands| && bands[i] == level.band
    ensures Fold(born, before + bookings)
         == Some(Raised(bookings[|bookings| - 1].rule, i, level.passes + |bookings|))
    decreases |bookings|
  {
    FoldMore(born, before, bookings);
    var n := |bookings| - 1;
    if n == 0 {
      assert before + bookings[..0] == before;
      OnePass(bookings[n].rule, level, i);
    } else {
      PassesCount(born, before, bookings[..n], level, i, bands);
      assert level.passes + n < bookings[n - 1].rule.raiseAfter;
      OnePass(bookings[n].rule, Raised(bookings[n - 1].rule, i, level.passes + n), i);
    }
  }

  lemma {:induction false} FailsCount(born: Band, before: seq<Booking>, bookings: seq<Booking>, level: Level, i: nat,
                                      bands: seq<Band>)
    requires Fold(born, before) == Some(level) && FailsInARow(bookings, level.fails)
    requires HaveBands(bookings, bands) && i < |bands| && bands[i] == level.band
    ensures Fold(born, before + bookings)
         == Some(Lowered(bookings[|bookings| - 1].rule, i, level.fails + |bookings|))
    decreases |bookings|
  {
    FoldMore(born, before, bookings);
    var n := |bookings| - 1;
    if n == 0 {
      assert before + bookings[..0] == before;
      OneFail(bookings[n].rule, level, i);
    } else {
      FailsCount(born, before, bookings[..n], level, i, bands);
      assert level.fails + n < bookings[n - 1].rule.lowerAfter;
      OneFail(bookings[n].rule, Lowered(bookings[n - 1].rule, i, level.fails + n), i);
    }
  }

  // ----- Over every run ------------------------------------------------------------------------------------------

  function LevelOf(st: TaskState): Level {
    Level(st.band, st.fails, st.passes)
  }

  /** What every state of a run says of a task: its level is counted so far, and all its bookings have the same bands. */
  lemma StateIsCounted(cfg: Config, s: System, k: TaskKey)
    requires Inv(cfg, s) && k in s.db.states
    ensures k in s.born && Fold(s.born[k], LogOf(s.bookings, k)) == Some(LevelOf(s.db.states[k]))
    ensures LogOf(s.bookings, k) != [] ==> HaveBands(LogOf(s.bookings, k), LogOf(s.bookings, k)[0].rule.bands)
  {
    var log := LogOf(s.bookings, k);
    assert TaskHistoryOk(s.db.revisions, s.db.submissions, s.db.states[k], log, s.born[k], k);
    if log != [] {
      assert BookingOk(s.db.revisions, s.db.submissions, k, log[0]);
      var revision := s.db.submissions[log[0].id].revision;
      assert RevisionOk(cfg.catalogue, s.db.uuids, s.db.revisions[revision], revision);
    }
    forall i | 0 <= i < |log| ensures log[i].rule.bands == log[0].rule.bands { SharedBands(cfg, s, k, i, 0); }
  }

  lemma SharedBands(cfg: Config, s: System, k: TaskKey, i: nat, j: nat)
    requires Inv(cfg, s) && k in s.db.states && i < |LogOf(s.bookings, k)| && j < |LogOf(s.bookings, k)|
    ensures LogOf(s.bookings, k)[i].rule.bands == LogOf(s.bookings, k)[j].rule.bands
  {
    var log := LogOf(s.bookings, k);
    assert TaskHistoryOk(s.db.revisions, s.db.submissions, s.db.states[k], log, s.born[k], k);
    assert BookingOk(s.db.revisions, s.db.submissions, k, log[i]) && BookingOk(s.db.revisions, s.db.submissions, k, log[j]);
    var a, b := s.db.submissions[log[i].id], s.db.submissions[log[j].id];
    assert SubmissionOk(cfg, s.db.uuids, s.db.revisions, s.db.states, a, log[i].id);
    assert SubmissionOk(cfg, s.db.uuids, s.db.revisions, s.db.states, b, log[j].id);
    assert Agree(s.db.revisions, a.revision, b.revision);
  }

  lemma StepKeepsBorn(cfg: Config, s: System, e: Event, k: TaskKey)
    requires k in s.born && k in s.db.states && k.user !in Step(cfg, s, e).wiped
    ensures k in Step(cfg, s, e).born && Step(cfg, s, e).born[k] == s.born[k]
  {
    match e
    case StartEvent(user, unit, goal, ask, w) => StartKeepsBorn(cfg, s, user, unit, goal, ask, w, k);
    case EraseEvent(user) =>
    case _ => OthersKeepBorn(cfg, s, e);
  }

  lemma OthersKeepBorn(cfg: Config, s: System, e: Event)
    requires !e.StartEvent? && !e.EraseEvent?
    ensures Step(cfg, s, e).born == s.born
  {
    match e
    case ClaimEvent(worker, user, id, now) => ClaimKeepsBorn(s, worker, user, id, now);
    case ReadEvent(worker, up) => ReadKeepsBorn(cfg, s, worker, up);
    case BookEvent(worker, w, now) => BookKeepsBorn(s, worker, w, now);
    case _ =>
  }

  lemma ClaimKeepsBorn(s: System, worker: nat, user: UserId, id: Uuid, now: Time)
    ensures StepClaim(s, worker, user, id, now).born == s.born
  {}

  lemma ReadKeepsBorn(cfg: Config, s: System, worker: nat, up: bool)
    ensures StepRead(cfg, s, worker, up).born == s.born
  {}

  lemma BookKeepsBorn(s: System, worker: nat, w: XpWorld, now: Time)
    ensures StepBook(s, worker, w, now).born == s.born
  {}

  lemma StartKeepsBorn(cfg: Config, s: System, user: UserId, unit: UnitId, goal: GoalId, ask: StartAsk, w: World,
                       k: TaskKey)
    requires k in s.born && k in s.db.states
    ensures var s' := StepStart(cfg, s, user, unit, goal, ask, w); k in s'.born && s'.born[k] == s.born[k]
  {}

  lemma {:induction false} RunKeepsBorn(cfg: Config, s: System, events: seq<Event>, k: TaskKey)
    requires Inv(cfg, s) && k in s.born && k.user !in Run(cfg, s, events).wiped
    ensures k in Run(cfg, s, events).born && Run(cfg, s, events).born[k] == s.born[k]
    decreases events
  {
    if events != [] {
      var next := Step(cfg, s, events[0]);
      StepKeepsInv(cfg, s, events[0]);
      RunRemembers(cfg, next, events[1..]);
      StepKeepsBorn(cfg, s, events[0], k);
      RunKeepsBorn(cfg, next, events[1..], k);
    }
  }

  /** The bookings of a task between a reachable state and a later one. */
  ghost predicate BookedBetween(s: System, now: System, k: TaskKey, bookings: seq<Booking>) {
    && k in s.db.states && k.user !in now.wiped && bookings != []
    && LogOf(now.bookings, k) == LogOf(s.bookings, k) + bookings
  }

  lemma CountedBetween(cfg: Config, s: System, later: seq<Event>, k: TaskKey, bookings: seq<Booking>)
    requires Inv(cfg, s) && BookedBetween(s, Run(cfg, s, later), k, bookings)
    ensures IsCountedBetween(s, Run(cfg, s, later), k, bookings)
  {
    RunKeepsInv(cfg, s, later);
    RunRemembers(cfg, s, later);
    StateIsCounted(cfg, s, k);
    RunKeepsBorn(cfg, s, later, k);
    CountedOnTop(cfg, s, Run(cfg, s, later), k, bookings);
  }

  ghost predicate IsCountedBetween(s: System, now: System, k: TaskKey, bookings: seq<Booking>)
    requires k in s.db.states && bookings != []
  {
    && k in s.born && Fold(s.born[k], LogOf(s.bookings, k)) == Some(LevelOf(s.db.states[k]))
    && k in now.db.states
    && Fold(s.born[k], LogOf(s.bookings, k) + bookings) == Some(LevelOf(now.db.states[k]))
    && HaveBands(bookings, bookings[0].rule.bands)
  }

  lemma CountedOnTop(cfg: Config, s: System, now: System, k: TaskKey, bookings: seq<Booking>)
    requires Inv(cfg, s) && Inv(cfg, now) && BookedBetween(s, now, k, bookings)
    requires KeepsStates(s.db.states, now.db.states, now.wiped)
    requires k in s.born && k in now.born && s.born[k] == now.born[k]
    ensures IsCountedBetween(s, now, k, bookings)
  {
    StateIsCounted(cfg, s, k);
    assert KeepsState(s.db.states, now.db.states, now.wiped, k);
    StateIsCounted(cfg, now, k);
    SuffixHasBands(LogOf(s.bookings, k), bookings);
  }

  lemma SuffixHasBands(before: seq<Booking>, bookings: seq<Booking>)
    requires bookings != [] && HaveBands(before + bookings, (before + bookings)[0].rule.bands)
    ensures HaveBands(bookings, bookings[0].rule.bands)
  {
    var all := before + bookings;
    assert forall j | 0 <= j < |bookings| :: bookings[j] == all[|before| + j];
  }

  /**
   Between two states of a run in which a task had only passes: they are counted on, the fails before them are
   forgotten, and the one that reaches the threshold of its rule moves the task one band up, at the top not at all, and
   starts both counters again.
   */
  lemma PassesRaise(cfg: Config, earlier: seq<Event>, later: seq<Event>, k: TaskKey, bookings: seq<Booking>, i: nat)
    requires BookedBetween(After(cfg, earlier), Run(cfg, After(cfg, earlier), later), k, bookings)
    requires PassesInARow(bookings, After(cfg, earlier).db.states[k].passes)
    requires i < |bookings[0].rule.bands| && bookings[0].rule.bands[i] == After(cfg, earlier).db.states[k].band
    ensures var st, now := After(cfg, earlier).db.states[k], Run(cfg, After(cfg, earlier), later);
            var rule := bookings[|bookings| - 1].rule;
            && k in now.db.states && i < |rule.bands|
            && LevelOf(now.db.states[k]) == Raised(rule, i, st.passes + |bookings|)
  {
    var s := After(cfg, earlier);
    ReachableInv(cfg, earlier);
    CountedBetween(cfg, s, later, k, bookings);
    PassesCount(s.born[k], LogOf(s.bookings, k), bookings, LevelOf(s.db.states[k]), i, bookings[0].rule.bands);
  }

  /** Likewise fails, which move the task one band down, at the bottom not at all. */
  lemma FailsLower(cfg: Config, earlier: seq<Event>, later: seq<Event>, k: TaskKey, bookings: seq<Booking>, i: nat)
    requires BookedBetween(After(cfg, earlier), Run(cfg, After(cfg, earlier), later), k, bookings)
    requires FailsInARow(bookings, After(cfg, earlier).db.states[k].fails)
    requires i < |bookings[0].rule.bands| && bookings[0].rule.bands[i] == After(cfg, earlier).db.states[k].band
    ensures var st, now := After(cfg, earlier).db.states[k], Run(cfg, After(cfg, earlier), later);
            var rule := bookings[|bookings| - 1].rule;
            && k in now.db.states && i < |rule.bands|
            && LevelOf(now.db.states[k]) == Lowered(rule, i, st.fails + |bookings|)
  {
    var s := After(cfg, earlier);
    ReachableInv(cfg, earlier);
    CountedBetween(cfg, s, later, k, bookings);
    FailsCount(s.born[k], LogOf(s.bookings, k), bookings, LevelOf(s.db.states[k]), i, bookings[0].rule.bands);
  }

  /** Without bookings in between, the level stays. */
  lemma LevelStays(cfg: Config, earlier: seq<Event>, later: seq<Event>, k: TaskKey)
    requires k in After(cfg, earlier).db.states && k.user !in Run(cfg, After(cfg, earlier), later).wiped
    requires LogOf(Run(cfg, After(cfg, earlier), later).bookings, k) == LogOf(After(cfg, earlier).bookings, k)
    ensures var st, now := After(cfg, earlier).db.states[k], Run(cfg, After(cfg, earlier), later);
            k in now.db.states && LevelOf(now.db.states[k]) == LevelOf(st)
  {
    var s, now := After(cfg, earlier), Run(cfg, After(cfg, earlier), later);
    ReachableInv(cfg, earlier);
    RunKeepsInv(cfg, s, later);
    RunRemembers(cfg, s, later);
    StateIsCounted(cfg, s, k);
    RunKeepsBorn(cfg, s, later, k);
    assert KeepsState(s.db.states, now.db.states, now.wiped, k);
    StateIsCounted(cfg, now, k);
  }
}
