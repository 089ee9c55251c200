/** The read-through caches: one key of the client cache, and the currency registry, which is the
    same machine with refreshes and without cached absences. Steps interleave freely. */
module Cache {
  import opened Model

  /** `start` and `read` record when the load that made the entry began and read the table. */
  datatype Entry<V> = Entry(value: Option<V>, expires: Time, start: Time, read: Time)

  /** A load in progress: begun, then holding what it read. */
  datatype Load<V> = Reading(start: Time) | Holding(start: Time, read: Time, value: Option<V>)

  datatype Flight<V> = NoFlight | Rechecking | Loading(load: Load<V>)

  /** What a lookup returns. `NilWithoutError` is a nil client together with a nil error. */
  datatype Answer<V> = Found(value: V) | NotFound | NilWithoutError | Failed

  /** An answer, when it was given, and how long the load behind it took. */
  datatype Given<V> = Given(answer: Answer<V>, at: Time, took: Time)

  /** `cacheAbsence`: the client cache stores a missing row, the registry treats it as an error. */
  datatype Settings = Settings(ttl: nat, cacheAbsence: bool)

  const CLIENTS := Settings(300, true)
  const CURRENCIES := Settings(3600, false)

  /** `truth[t]` is what the table holds at second t, and the last second is now. `missed` counts
      lookups between their cache miss and the flight; the rest wait in the flight. */
  datatype State<V> = State(
    truth: seq<Option<V>>,
    entry: Option<Entry<V>>,
    flight: Flight<V>,
    missed: nat,
    waiting: nat,
    refreshes: seq<Load<V>>,
    given: seq<Given<V>>)

  function Now<V>(s: State<V>): int {
    |s.truth| - 1
  }

  function Empty<V>(first: Option<V>): State<V> {
    State([first], None, NoFlight, 0, 0, [], [])
  }

  datatype Step<V> =
    | Tick(row: Option<V>)
    | Lookup
    | EnterFlight
    | Recheck
    | ReadTable
    | LoadFails
    | LoadFinishes
    | Invalidate
    | RefreshStarts
    | RefreshReads(load: nat)
    | RefreshFinishes(load: nat)

  /** An entry answers until it has expired. */
  predicate Hit<V>(s: State<V>) {
    s.entry.Some? && Now(s) <= s.entry.value.expires
  }

  predicate Enabled<V>(s: State<V>, step: Step<V>) {
    match step
    case Tick(_) => true
    case Lookup => true
    case EnterFlight => s.missed > 0
    case Recheck => s.flight.Rechecking?
    case ReadTable => s.truth != [] && s.flight.Loading? && s.flight.load.Reading?
    case LoadFails => s.flight.Loading?
    case LoadFinishes => s.flight.Loading? && s.flight.load.Holding?
    case Invalidate => true
    case RefreshStarts => true
    case RefreshReads(k) => s.truth != [] && k < |s.refreshes| && s.refreshes[k].Reading?
    case RefreshFinishes(k) => k < |s.refreshes| && s.refreshes[k].Holding?
  }

  /** The cache hit of a lookup distinguishes a cached absence. */
  function HitAnswer<V>(e: Entry<V>): Answer<V> {
    match e.value
    case Some(v) => Found(v)
    case None => NotFound
  }

  /** The re-check inside the flight hands out whatever the entry holds; a cached absence leaves it
      as a typed nil that the nil test after the flight does not catch. */
  function RecheckAnswer<V>(e: Entry<V>): Answer<V> {
    match e.value
    case Some(v) => Found(v)
    case None => NilWithoutError
  }

  function LoadAnswer<V>(cfg: Settings, value: Option<V>): Answer<V> {
    match value
    case Some(v) => Found(v)
    case None => if cfg.cacheAbsence then NotFound else Failed
  }

  function Stored<V>(cfg: Settings, load: Load<V>, now: Time): Entry<V>
    requires load.Holding?
  {
    Entry(load.value, now + cfg.ttl, load.start, load.read)
  }

  function Cacheable<V>(cfg: Settings, value: Option<V>): bool {
    value.Some? || cfg.cacheAbsence
  }

  function Copies<V>(n: nat, g: Given<V>): (gs: seq<Given<V>>)
    ensures |gs| == n && forall k :: 0 <= k < n ==> gs[k] == g
  {
    seq(n, _ => g)
  }

  /** The flight ends and everyone waiting in it gets its answer. */
  function Land<V>(s: State<V>, a: Answer<V>, took: Time): State<V> {
    s.(flight := NoFlight, waiting := 0, given := s.given + Copies(s.waiting, Given(a, Now(s), took)))
  }

  function Apply<V>(cfg: Settings, s: State<V>, step: Step<V>): State<V>
    requires Enabled(s, step)
  {
    match step
    case Tick(row) => s.(truth := s.truth + [row])
    case Lookup =>
      if Hit(s) then
        var e := s.entry.value;
        s.(given := s.given + [Given(HitAnswer(e), Now(s), e.expires - cfg.ttl - e.start)])
      else
        s.(missed := s.missed + 1)
    case EnterFlight =>
      s.(missed := s.missed - 1, waiting := s.waiting + 1,
         flight := if s.flight.NoFlight? then Rechecking else s.flight)
    case Recheck =>
      if Hit(s) then
        Land(s, RecheckAnswer(s.entry.value), s.entry.value.expires - cfg.ttl - s.entry.value.start)
      else
        s.(flight := Loading(Reading(Now(s))))
    case ReadTable => s.(flight := Loading(Holding(s.flight.load.start, Now(s), s.truth[Now(s)])))
    case LoadFails => Land(s, Failed, Now(s) - s.flight.load.start)
    case LoadFinishes =>
      var load := s.flight.load;
      var s' := if Cacheable(cfg, load.value) then s.(entry := Some(Stored(cfg, load, Now(s)))) else s;
      Land(s', LoadAnswer(cfg, load.value), Now(s) - load.start)
    case Invalidate => s.(entry := None)  // explicit removal, or eviction
    case RefreshStarts => s.(refreshes := s.refreshes + [Reading(Now(s))])
    case RefreshReads(k) =>
      s.(refreshes := s.refreshes[k := Holding(s.refreshes[k].start, Now(s), s.truth[Now(s)])])
    case RefreshFinishes(k) =>
      var load := s.refreshes[k];
      if Cacheable(cfg, load.value) then s.(entry := Some(Stored(cfg, load, Now(s)))) else s
  }

  predicate Run<V>(cfg: Settings, s: State<V>, steps: seq<Step<V>>)
    decreases |steps|, 0
  {
    steps == [] ||
    (var init, last := steps[..|steps| - 1], steps[|steps| - 1];
     Run(cfg, s, init) && Enabled(Exec(cfg, s, init), last))
  }

  function Exec<V>(cfg: Settings, s: State<V>, steps: seq<Step<V>>): State<V>
    requires Run(cfg, s, steps)
    decreases |steps|, 1
  {
    if steps == [] then s else Apply(cfg, Exec(cfg, s, steps[..|steps| - 1]), steps[|steps| - 1])
  }

  lemma RunExtend<V>(cfg: Settings, s: State<V>, steps: seq<Step<V>>, step: Step<V>)
    requires Run(cfg, s, steps) && Enabled(Exec(cfg, s, steps), step)
    ensures Run(cfg, s, steps + [step]) && Exec(cfg, s, steps + [step]) == Apply(cfg, Exec(cfg, s, steps), step)
  {
    assert (steps + [step])[..|steps|] == steps;
  }

  /** The answer is what the table held. */
  ghost predicate Tells<V>(a: Answer<V>, row: Option<V>) {
    match a
    case Found(v) => row == Some(v)
    case NotFound => row == None
    case NilWithoutError => row == None
    case Failed => false
  }

  /** An answer is an error, or was true at a moment at most TTL plus its load's duration ago. */
  ghost predicate Timely<V>(cfg: Settings, truth: seq<Option<V>>, g: Given<V>) {
    g.answer.Failed? ||
    exists u :: 0 <= u < |truth| && g.at - cfg.ttl - g.took <= u <= g.at && Tells(g.answer, truth[u])
  }

  ghost predicate EntryOk<V>(cfg: Settings, truth: seq<Option<V>>, e: Entry<V>) {
    && 0 <= e.start <= e.read <= e.expires - cfg.ttl < |truth|
    && e.value == truth[e.read]
    && Cacheable(cfg, e.value)
  }

  ghost predicate LoadOk<V>(truth: seq<Option<V>>, load: Load<V>) {
    && 0 <= load.start < |truth|
    && (load.Holding? ==> load.start <= load.read < |truth| && load.value == truth[load.read])
  }

  ghost predicate Inv<V>(cfg: Settings, s: State<V>) {
    && |s.truth| > 0
    && (s.entry.Some? ==> EntryOk(cfg, s.truth, s.entry.value))
    && (s.flight.Loading? ==> LoadOk(s.truth, s.flight.load))
    && (forall k :: 0 <= k < |s.refreshes| ==> LoadOk(s.truth, s.refreshes[k]))
    && (forall k :: 0 <= k < |s.given| ==> Timely(cfg, s.truth, s.given[k]))
  }

  lemma TimelyLater<V>(cfg: Settings, truth: seq<Option<V>>, row: Option<V>, g: Given<V>)
    requires Timely(cfg, truth, g)
    ensures Timely(cfg, truth + [row], g)
  {
    if !g.answer.Failed? {
      var u :| 0 <= u < |truth| && g.at - cfg.ttl - g.took <= u <= g.at && Tells(g.answer, truth[u]);
      assert (truth + [row])[u] == truth[u];
    }
  }

  lemma HitTimely<V>(cfg: Settings, s: State<V>, a: Answer<V>)
    requires |s.truth| > 0 && Hit(s) && EntryOk(cfg, s.truth, s.entry.value)
    requires a == HitAnswer(s.entry.value) || a == RecheckAnswer(s.entry.value)
    ensures Timely(cfg, s.truth, Given(a, Now(s), s.entry.value.expires - cfg.ttl - s.entry.value.start))
  {
    assert Tells(a, s.truth[s.entry.value.read]);
  }

  lemma LoadTimely<V>(cfg: Settings, s: State<V>, load: Load<V>)
    requires |s.truth| > 0 && load.Holding? && LoadOk(s.truth, load)
    ensures Timely(cfg, s.truth, Given(LoadAnswer(cfg, load.value), Now(s), Now(s) - load.start))
  {
    assert LoadAnswer(cfg, load.value).Failed? || Tells(LoadAnswer(cfg, load.value), s.truth[load.read]);
  }

  lemma TickInv<V>(cfg: Settings, s: State<V>, row: Option<V>)
    requires Inv(cfg, s)
    ensures Inv(cfg, Apply(cfg, s, Tick(row)))
  {
    forall k | 0 <= k < |s.given| ensures Timely(cfg, s.truth + [row], s.given[k]) {
      TimelyLater(cfg, s.truth, row, s.given[k]);
    }
  }

  /** Steps that answer: a lookup, a re-check, and the end of a load. */
  lemma AnswerInv<V>(cfg: Settings, s: State<V>, step: Step<V>)
    requires Inv(cfg, s) && Enabled(s, step)
    requires step.Lookup? || step.Recheck? || step.LoadFails? || step.LoadFinishes?
    ensures Inv(cfg, Apply(cfg, s, step))
  {
    match step
    case Lookup => if Hit(s) { HitTimely(cfg, s, HitAnswer(s.entry.value)); }
    case Recheck => if Hit(s) { HitTimely(cfg, s, RecheckAnswer(s.entry.value)); }
    case LoadFails =>
    case LoadFinishes => LoadTimely(cfg, s, s.flight.load);
  }

  lemma SilentInv<V>(cfg: Settings, s: State<V>, step: Step<V>)
    requires Inv(cfg, s) && Enabled(s, step)
    requires !step.Tick? && !step.Lookup? && !step.Recheck? && !step.LoadFails? && !step.LoadFinishes?
    ensures Inv(cfg, Apply(cfg, s, step))
  {
  }

  lemma InvStep<V>(cfg: Settings, s: State<V>, step: Step<V>)
    requires Inv(cfg, s) && Enabled(s, step)
    ensures Inv(cfg, Apply(cfg, s, step))
  {
    if step.Tick? {
      TickInv(cfg, s, step.row);
    } else if step.Lookup? || step.Recheck? || step.LoadFails? || step.LoadFinishes? {
      AnswerInv(cfg, s, step);
    } else {
      SilentInv(cfg, s, step);
    }
  }

  /** Bounded staleness, over every interleaving of lookups, flights, expiries, invalidations,
      refreshes and table changes: each answer is an error or equals the table at a moment no
      earlier than the TTL plus the load's duration before it is given. */
  lemma {:induction false} BoundedStaleness<V>(cfg: Settings, first: Option<V>, steps: seq<Step<V>>)
    requires Run(cfg, Empty(first), steps)
    ensures Inv(cfg, Exec(cfg, Empty(first), steps))
  {
    if steps != [] {
      BoundedStaleness(cfg, first, steps[..|steps| - 1]);
      InvStep(cfg, Exec(cfg, Empty(first), steps[..|steps| - 1]), steps[|steps| - 1]);
    }
  }

  /** The step ends no load that took longer than this. */
  predicate InTime<V>(s: State<V>, step: Step<V>, longest: nat)
    requires Enabled(s, step)
  {
    match step
    case LoadFails => Now(s) - s.flight.load.start <= longest
    case LoadFinishes => Now(s) - s.flight.load.start <= longest
    case RefreshFinishes(k) => Now(s) - s.refreshes[k].start <= longest
    case _ => true
  }

  ghost predicate AllInTime<V>(cfg: Settings, s: State<V>, steps: seq<Step<V>>, longest: nat)
    requires Run(cfg, s, steps)
  {
    steps == [] ||
    (var init, last := steps[..|steps| - 1], steps[|steps| - 1];
     AllInTime(cfg, s, init, longest) && InTime(Exec(cfg, s, init), last, longest))
  }

  /** What the cache holds was loaded no more slowly, and every answer says so. */
  ghost predicate Quick<V>(cfg: Settings, s: State<V>, longest: nat) {
    && (s.entry.Some? ==> s.entry.value.expires - cfg.ttl - s.entry.value.start <= longest)
    && (forall k :: 0 <= k < |s.given| ==> s.given[k].took <= longest)
  }

  lemma QuickStep<V>(cfg: Settings, s: State<V>, step: Step<V>, longest: nat)
    requires Quick(cfg, s, longest) && Enabled(s, step) && InTime(s, step, longest)
    ensures Quick(cfg, Apply(cfg, s, step), longest)
  {
  }

  lemma {:induction false} QuickRun<V>(cfg: Settings, first: Option<V>, steps: seq<Step<V>>, longest: nat)
    requires Run(cfg, Empty(first), steps) && AllInTime(cfg, Empty(first), steps, longest)
    ensures Quick(cfg, Exec(cfg, Empty(first), steps), longest)
  {
    if steps != [] {
      var init := steps[..|steps| - 1];
      QuickRun(cfg, first, init, longest);
      QuickStep(cfg, Exec(cfg, Empty(first), init), steps[|steps| - 1], longest);
    }
  }

  /** In seconds: if no load takes longer than a bound, a client is answered as it was at most five
      minutes and that bound ago, and the currencies as they were at most an hour and that bound ago. */
  lemma StalenessInSeconds<V>(registry: bool, first: Option<V>, steps: seq<Step<V>>, longest: nat, k: nat)
    requires var cfg := if registry then CURRENCIES else CLIENTS;
      && Run(cfg, Empty(first), steps) && AllInTime(cfg, Empty(first), steps, longest)
      && k < |Exec(cfg, Empty(first), steps).given|
    ensures var s := Exec(if registry then CURRENCIES else CLIENTS, Empty(first), steps);
      var g, ttl := s.given[k], if registry then 3600 else 300;
      g.answer.Failed? ||
      exists u :: 0 <= u < |s.truth| && g.at - ttl - longest <= u <= g.at && Tells(g.answer, s.truth[u])
  {
    var cfg := if registry then CURRENCIES else CLIENTS;
    BoundedStaleness(cfg, first, steps);
    QuickRun(cfg, first, steps, longest);
    var s := Exec(cfg, Empty(first), steps);
    assert Timely(cfg, s.truth, s.given[k]);
  }

  /** Exactly when a nil without an error comes out: the re-check of a flight hits a cached
      absence. No other step gives that answer. */
  lemma NilOnlyFromRecheck<V>(cfg: Settings, s: State<V>, step: Step<V>)
    requires Enabled(s, step)
    ensures var s' := Apply(cfg, s, step);
      (exists k :: |s.given| <= k < |s'.given| && s'.given[k].answer.NilWithoutError?) <==>
      (step.Recheck? && s.waiting > 0 && Hit(s) && s.entry.value.value.None?)
  {
    var s' := Apply(cfg, s, step);
    if step.Recheck? && s.waiting > 0 && Hit(s) && s.entry.value.value.None? {
      assert s'.given[|s.given|].answer.NilWithoutError?;
    }
  }

  ghost predicate NeverNil<V>(s: State<V>) {
    forall k :: 0 <= k < |s.given| ==> !s.given[k].answer.NilWithoutError? && !s.given[k].answer.NotFound?
  }

  lemma RegistryStep<V>(s: State<V>, step: Step<V>)
    requires Enabled(s, step) && NeverNil(s)
    requires s.entry.Some? ==> EntryOk(CURRENCIES, s.truth, s.entry.value)
    ensures NeverNil(Apply(CURRENCIES, s, step))
  {
    var s' := Apply(CURRENCIES, s, step);
    forall k | 0 <= k < |s'.given|
      ensures !s'.given[k].answer.NilWithoutError? && !s'.given[k].answer.NotFound?
    {
      if k < |s.given| { assert s'.given[k] == s.given[k]; }
    }
  }

  /** The registry never caches an absence, so it never answers nil without an error. */
  lemma {:induction false} RegistryNeverNil<V>(first: Option<V>, steps: seq<Step<V>>)
    requires Run(CURRENCIES, Empty(first), steps)
    ensures NeverNil(Exec(CURRENCIES, Empty(first), steps))
  {
    if steps != [] {
      var init := steps[..|steps| - 1];
      RegistryNeverNil(first, init);
      BoundedStaleness(CURRENCIES, first, init);
      var s := Exec(CURRENCIES, Empty(first), init);
      RegistryStep(s, steps[|steps| - 1]);
    }
  }

  /** The interleaving that reaches it: two lookups miss, the first one's flight caches the
      absence and lands, and only then does the second one start a flight of its own. */
  function NilSteps<V>(): seq<Step<V>> {
    [] + [Lookup] + [Lookup] + [EnterFlight] + [Recheck] + [ReadTable] + [LoadFinishes] + [EnterFlight] + [Recheck]
  }

  predicate Moves(s: State<int>, step: Step<int>, s': State<int>) {
    Enabled(s, step) && Apply(CLIENTS, s, step) == s'
  }

  /** One enabled step from a known state of a run of the client cache. */
  lemma Extends(first: Option<int>, steps: seq<Step<int>>, s: State<int>, step: Step<int>, s': State<int>)
    returns (steps': seq<Step<int>>)
    requires Run(CLIENTS, Empty(first), steps) && Exec(CLIENTS, Empty(first), steps) == s && Moves(s, step, s')
    ensures steps' == steps + [step]
    ensures Run(CLIENTS, Empty(first), steps') && Exec(CLIENTS, Empty(first), steps') == s'
  {
    RunExtend(CLIENTS, Empty(first), steps, step);
    steps' := steps + [step];
  }

  lemma NilStates() returns (
      s1: State<int>, s2: State<int>, s3: State<int>, s4: State<int>,
      s5: State<int>, s6: State<int>, s7: State<int>, s8: State<int>)
    ensures Moves(Empty(None), Lookup, s1) && Moves(s1, Lookup, s2) && Moves(s2, EnterFlight, s3)
    ensures Moves(s3, Recheck, s4) && Moves(s4, ReadTable, s5) && Moves(s5, LoadFinishes, s6)
    ensures Moves(s6, EnterFlight, s7) && Moves(s7, Recheck, s8)
    ensures s8.given == [Given(NotFound, 0, 0), Given(NilWithoutError, 0, 0)]
  {
    var g1: Given<int> := Given(NotFound, 0, 0);
    var g2: Given<int> := Given(NilWithoutError, 0, 0);
    assert Copies(1, g1) == [g1] && Copies(1, g2) == [g2];
    var e := Empty<int>(None);
    s1 := e.(missed := 1);
    s2 := e.(missed := 2);
    s3 := e.(missed := 1, waiting := 1, flight := Rechecking);
    s4 := s3.(flight := Loading(Reading(0)));
    s5 := s3.(flight := Loading(Holding(0, 0, None)));
    s6 := e.(missed := 1, entry := Some(Entry(None, 300, 0, 0)), given := [g1]);
    s7 := s6.(missed := 0, waiting := 1, flight := Rechecking);
    s8 := s6.(missed := 0, given := [g1] + [g2]);
  }

  lemma NilReached()
    ensures Run(CLIENTS, Empty<int>(None), NilSteps())
    ensures Exec(CLIENTS, Empty<int>(None), NilSteps()).given == [Given(NotFound, 0, 0), Given(NilWithoutError, 0, 0)]
  {
    var s1, s2, s3, s4, s5, s6, s7, s8 := NilStates();
    var steps := Extends(None, [], Empty(None), Lookup, s1);
    steps := Extends(None, steps, s1, Lookup, s2);
    steps := Extends(None, steps, s2, EnterFlight, s3);
    steps := Extends(None, steps, s3, Recheck, s4);
    steps := Extends(None, steps, s4, ReadTable, s5);
    steps := Extends(None, steps, s5, LoadFinishes, s6);
    steps := Extends(None, steps, s6, EnterFlight, s7);
    steps := Extends(None, steps, s7, Recheck, s8);
  }

  /** Exactly when an error comes out: someone waits in the flight, and its load fails, or finds no row
      where absences are not cached. */
  lemma FailedExactly<V>(cfg: Settings, s: State<V>, step: Step<V>)
    requires Enabled(s, step)
    ensures var s' := Apply(cfg, s, step);
      (exists k :: |s.given| <= k < |s'.given| && s'.given[k].answer.Failed?) <==>
      (s.waiting > 0 && (step.LoadFails? || (step.LoadFinishes? && s.flight.load.value.None? && !cfg.cacheAbsence)))
  {
    var s' := Apply(cfg, s, step);
    if s.waiting > 0 && (step.LoadFails? || (step.LoadFinishes? && s.flight.load.value.None? && !cfg.cacheAbsence)) {
      assert s'.given[|s.given|].answer.Failed?;
    }
  }

  ghost predicate Undisturbed<V>(steps: seq<Step<V>>) {
    forall k :: 0 <= k < |steps| ==> !steps[k].LoadFails? && (steps[k].Tick? ==> steps[k].row.Some?)
  }

  ghost predicate RowThere<V>(s: State<V>) {
    && (forall u :: 0 <= u < |s.truth| ==> s.truth[u].Some?)
    && (forall k :: 0 <= k < |s.given| ==> s.given[k].answer.Found?)
  }

  lemma FoundStep<V>(cfg: Settings, s: State<V>, step: Step<V>)
    requires Inv(cfg, s) && RowThere(s) && Enabled(s, step)
    requires !step.LoadFails? && (step.Tick? ==> step.row.Some?)
    ensures RowThere(Apply(cfg, s, step))
  {
    var s' := Apply(cfg, s, step);
    forall k | 0 <= k < |s'.given| ensures s'.given[k].answer.Found? {
      if k < |s.given| { assert s'.given[k] == s.given[k]; }
    }
  }

  /** While the row is there and no load fails every lookup that is answered is answered with a row,
      in both caches: never an error, an absence or a nil. */
  lemma {:induction false} AlwaysFound<V>(cfg: Settings, first: Option<V>, steps: seq<Step<V>>)
    requires first.Some? && Undisturbed(steps) && Run(cfg, Empty(first), steps)
    ensures RowThere(Exec(cfg, Empty(first), steps))
  {
    if steps != [] {
      var init, step := steps[..|steps| - 1], steps[|steps| - 1];
      assert forall k :: 0 <= k < |init| ==> init[k] == steps[k];
      AlwaysFound(cfg, first, init);
      BoundedStaleness(cfg, first, init);
      FoundStep(cfg, Exec(cfg, Empty(first), init), step);
    }
  }

  function Lookups<V>(steps: seq<Step<V>>): nat {
    if steps == [] then 0 else Lookups(steps[..|steps| - 1]) + (if steps[|steps| - 1].Lookup? then 1 else 0)
  }

  /** The loads of the flight that ended. */
  function Ended<V>(steps: seq<Step<V>>): nat {
    if steps == [] then 0 else
      Ended(steps[..|steps| - 1]) + (if steps[|steps| - 1].LoadFails? || steps[|steps| - 1].LoadFinishes? then 1 else 0)
  }

  /** The loads of the flight that began: its re-check missed. */
  function Begun<V>(cfg: Settings, s: State<V>, steps: seq<Step<V>>): nat
    requires Run(cfg, s, steps)
  {
    if steps == [] then 0 else
      var init := steps[..|steps| - 1];
      Begun(cfg, s, init) + (if steps[|steps| - 1].Recheck? && !Hit(Exec(cfg, s, init)) then 1 else 0)
  }

  lemma LookupStep<V>(cfg: Settings, s: State<V>, step: Step<V>)
    requires Enabled(s, step)
    ensures var s' := Apply(cfg, s, step);
      |s'.given| + s'.missed + s'.waiting == |s.given| + s.missed + s.waiting + (if step.Lookup? then 1 else 0)
  {
  }

  /** Every lookup is answered once or still on its way. */
  lemma {:induction false} EveryLookupAnswered<V>(cfg: Settings, first: Option<V>, steps: seq<Step<V>>)
    requires Run(cfg, Empty(first), steps)
    ensures var s := Exec(cfg, Empty(first), steps); |s.given| + s.missed + s.waiting == Lookups(steps)
  {
    if steps != [] {
      EveryLookupAnswered(cfg, first, steps[..|steps| - 1]);
      LookupStep(cfg, Exec(cfg, Empty(first), steps[..|steps| - 1]), steps[|steps| - 1]);
    }
  }

  /** Of the loads that misses lead to at most one is under way. */
  lemma {:induction false} OneLoadAtATime<V>(cfg: Settings, first: Option<V>, steps: seq<Step<V>>)
    requires Run(cfg, Empty(first), steps)
    ensures Begun(cfg, Empty(first), steps) ==
            Ended(steps) + (if Exec(cfg, Empty(first), steps).flight.Loading? then 1 else 0)
  {
    if steps != [] { OneLoadAtATime(cfg, first, steps[..|steps| - 1]); }
  }

  /** Steps that neither drop nor replace the entry. */
  ghost predicate Quiet<V>(steps: seq<Step<V>>) {
    forall k :: 0 <= k < |steps| ==>
      !steps[k].Invalidate? && !steps[k].LoadFinishes? && !steps[k].RefreshFinishes?
  }

  lemma {:induction false} EntryStays<V>(cfg: Settings, s: State<V>, steps: seq<Step<V>>)
    requires Quiet(steps) && Run(cfg, s, steps)
    ensures Exec(cfg, s, steps).entry == s.entry
  {
    if steps != [] {
      var init := steps[..|steps| - 1];
      assert forall k :: 0 <= k < |init| ==> init[k] == steps[k];
      EntryStays(cfg, s, init);
    }
  }

  /** What a load has cached is served for its whole TTL and not a second longer: until then every
      lookup is answered from it at once, and after that it misses. */
  lemma ServedForTtl<V>(cfg: Settings, s: State<V>, finish: Step<V>, load: Load<V>, steps: seq<Step<V>>)
    requires Enabled(s, finish) && load.Holding? && Cacheable(cfg, load.value)
    requires (finish.LoadFinishes? && s.flight.load == load) ||
             (finish.RefreshFinishes? && s.refreshes[finish.load] == load)
    requires Quiet(steps) && Run(cfg, Apply(cfg, s, finish), steps)
    ensures var s' := Exec(cfg, Apply(cfg, s, finish), steps);
      var after := Apply(cfg, s', Lookup);
      if Now(s') <= Now(s) + cfg.ttl then
        && |after.given| == |s'.given| + 1 && after.missed == s'.missed
        && after.given[|s'.given|].answer == (if load.value.Some? then Found(load.value.value) else NotFound)
      else
        after.given == s'.given && after.missed == s'.missed + 1
  {
    EntryStays(cfg, Apply(cfg, s, finish), steps);
  }

  /** The table has held this row at some moment from u on. */
  ghost predicate HeldSince<V>(truth: seq<Option<V>>, u: Time, row: Option<V>) {
    exists w :: 0 <= w < |truth| && w >= u && truth[w] == row
  }

  /** What a load in progress would put into the cache is a row the table has held since u. */
  ghost predicate CurrentLoad<V>(cfg: Settings, truth: seq<Option<V>>, u: Time, load: Load<V>) {
    load.Holding? && Cacheable(cfg, load.value) ==> HeldSince(truth, u, load.value)
  }

  /** Nothing in the cache, or on its way into it, is older than u. */
  ghost predicate NothingStale<V>(cfg: Settings, s: State<V>, u: Time) {
    && u <= Now(s)
    && (s.entry.Some? ==> HeldSince(s.truth, u, s.entry.value.value))
    && (s.flight.Loading? ==> CurrentLoad(cfg, s.truth, u, s.flight.load))
    && (forall k :: 0 <= k < |s.refreshes| ==> CurrentLoad(cfg, s.truth, u, s.refreshes[k]))
  }

  ghost predicate Fresh<V>(truth: seq<Option<V>>, u: Time, a: Answer<V>) {
    a.Failed? || exists w :: 0 <= w < |truth| && w >= u && Tells(a, truth[w])
  }

  /** The answers given since the n-th reflect the table at or after u. */
  ghost predicate FreshSince<V>(s: State<V>, n: nat, u: Time) {
    forall k :: n <= k < |s.given| ==> Fresh(s.truth, u, s.given[k].answer)
  }

  lemma HeldLater<V>(truth: seq<Option<V>>, u: Time, row: Option<V>, more: Option<V>)
    requires HeldSince(truth, u, row)
    ensures HeldSince(truth + [more], u, row)
  {
    var w :| 0 <= w < |truth| && w >= u && truth[w] == row;
    assert (truth + [more])[w] == row;
  }

  lemma FreshLater<V>(truth: seq<Option<V>>, u: Time, a: Answer<V>, more: Option<V>)
    requires Fresh(truth, u, a)
    ensures Fresh(truth + [more], u, a)
  {
    if !a.Failed? {
      var w :| 0 <= w < |truth| && w >= u && Tells(a, truth[w]);
      assert (truth + [more])[w] == truth[w];
    }
  }

  lemma LoadLater<V>(cfg: Settings, truth: seq<Option<V>>, u: Time, load: Load<V>, more: Option<V>)
    requires CurrentLoad(cfg, truth, u, load)
    ensures CurrentLoad(cfg, truth + [more], u, load)
  {
    if load.Holding? && Cacheable(cfg, load.value) { HeldLater(truth, u, load.value, more); }
  }

  lemma FreshTick<V>(cfg: Settings, s: State<V>, row: Option<V>, n: nat, u: Time)
    requires NothingStale(cfg, s, u) && FreshSince(s, n, u)
    ensures NothingStale(cfg, Apply(cfg, s, Tick(row)), u) && FreshSince(Apply(cfg, s, Tick(row)), n, u)
  {
    var s' := Apply(cfg, s, Tick(row));
    if s.entry.Some? { HeldLater(s.truth, u, s.entry.value.value, row); }
    if s.flight.Loading? { LoadLater(cfg, s.truth, u, s.flight.load, row); }
    forall k | 0 <= k < |s'.refreshes| ensures CurrentLoad(cfg, s'.truth, u, s'.refreshes[k]) {
      LoadLater(cfg, s.truth, u, s.refreshes[k], row);
    }
    forall k | n <= k < |s'.given| ensures Fresh(s'.truth, u, s'.given[k].answer) {
      FreshLater(s.truth, u, s.given[k].answer, row);
    }
  }

  /** What is read now is current. */
  lemma HeldNow<V>(s: State<V>, u: Time)
    requires |s.truth| > 0 && u <= Now(s)
    ensures HeldSince(s.truth, u, s.truth[Now(s)])
  {
  }

  lemma StaleStep<V>(cfg: Settings, s: State<V>, step: Step<V>, u: Time)
    requires |s.truth| > 0 && Enabled(s, step) && !step.Tick? && NothingStale(cfg, s, u)
    ensures NothingStale(cfg, Apply(cfg, s, step), u)
  {
    HeldNow(s, u);
  }

  /** An answer that tells a row held since u is fresh. */
  lemma TellsHeld<V>(truth: seq<Option<V>>, u: Time, row: Option<V>, a: Answer<V>)
    requires HeldSince(truth, u, row) && Tells(a, row)
    ensures Fresh(truth, u, a)
  {
    var w :| 0 <= w < |truth| && w >= u && truth[w] == row;
    assert Tells(a, truth[w]);
  }

  lemma AnswerStep<V>(cfg: Settings, s: State<V>, step: Step<V>, n: nat, u: Time)
    requires Enabled(s, step) && !step.Tick? && NothingStale(cfg, s, u) && FreshSince(s, n, u)
    ensures FreshSince(Apply(cfg, s, step), n, u)
  {
    var s' := Apply(cfg, s, step);
    forall k | n <= k < |s'.given| ensures Fresh(s'.truth, u, s'.given[k].answer) {
      if k < |s.given| {
        assert s'.given[k] == s.given[k];
      } else if step.LoadFinishes? {
        var load := s.flight.load;
        if Cacheable(cfg, load.value) { TellsHeld(s.truth, u, load.value, LoadAnswer(cfg, load.value)); }
      } else if !step.LoadFails? {
        var row := s.entry.value.value;
        TellsHeld(s.truth, u, row, s'.given[k].answer);
      }
    }
  }

  lemma {:induction false} FreshRun<V>(cfg: Settings, s: State<V>, steps: seq<Step<V>>, n: nat, u: Time)
    requires Inv(cfg, s) && NothingStale(cfg, s, u) && FreshSince(s, n, u) && Run(cfg, s, steps)
    ensures var s' := Exec(cfg, s, steps); Inv(cfg, s') && NothingStale(cfg, s', u) && FreshSince(s', n, u)
  {
    if steps != [] {
      var init, step := steps[..|steps| - 1], steps[|steps| - 1];
      FreshRun(cfg, s, init, n, u);
      var mid := Exec(cfg, s, init);
      InvStep(cfg, mid, step);
      if step.Tick? {
        FreshTick(cfg, mid, step.row, n, u);
      } else {
        StaleStep(cfg, mid, step, u);
        AnswerStep(cfg, mid, step, n, u);
      }
    }
  }

  lemma TwoSteps<V>(cfg: Settings, s: State<V>, a: Step<V>, b: Step<V>)
    requires Enabled(s, a) && Enabled(Apply(cfg, s, a), b)
    ensures Run(cfg, s, [a, b]) && Exec(cfg, s, [a, b]) == Apply(cfg, Apply(cfg, s, a), b)
  {
    RunExtend(cfg, s, [], a);
    assert [] + [a] == [a];
    RunExtend(cfg, s, [a], b);
    assert [a] + [b] == [a, b];
  }

  /** Of the rows since now there is only the current one. */
  lemma NotFresh<V>(truth: seq<Option<V>>, row: Option<V>)
    requires |truth| > 0 && row != truth[|truth| - 1]
    ensures row.Some? ==> !Fresh(truth, |truth| - 1, Found(row.value))
    ensures row.None? ==> !Fresh(truth, |truth| - 1, NotFound)
  {
  }

  lemma StaleAnswer<V>(cfg: Settings, s: State<V>, finish: Step<V>, load: Load<V>)
    requires |s.truth| > 0 && Enabled(s, finish) && load.Holding? && Cacheable(cfg, load.value)
    requires (finish.LoadFinishes? && s.flight.load == load) ||
             (finish.RefreshFinishes? && s.refreshes[finish.load] == load)
    ensures var s' := Apply(cfg, Apply(cfg, s, finish), Lookup);
      && |s'.given| > |s.given| && s'.truth == s.truth
      && s'.given[|s'.given| - 1].answer == HitAnswer(Stored(cfg, load, Now(s)))
  {
    assert Hit(Apply(cfg, s, finish));
  }

  /** A load that holds another row than the table puts it back, and the next lookup is answered
      from it. */
  lemma StaleLookup<V>(cfg: Settings, s: State<V>, finish: Step<V>, load: Load<V>)
    requires Inv(cfg, s) && Enabled(s, finish) && load.Holding? && Cacheable(cfg, load.value)
    requires (finish.LoadFinishes? && s.flight.load == load) ||
             (finish.RefreshFinishes? && s.refreshes[finish.load] == load)
    requires load.value != s.truth[Now(s)]
    ensures Run(cfg, s, [finish, Lookup]) && !FreshSince(Exec(cfg, s, [finish, Lookup]), |s.given|, Now(s))
  {
    TwoSteps(cfg, s, finish, Lookup);
    var s2 := Apply(cfg, Apply(cfg, s, finish), Lookup);
    StaleAnswer(cfg, s, finish, load);
    NotFresh(s.truth, load.value);
    assert !Fresh(s2.truth, Now(s), s2.given[|s2.given| - 1].answer);
  }

  /** No load under way holds a row, worth caching, that is not the table's. */
  ghost predicate LoadsCurrent<V>(cfg: Settings, s: State<V>) {
    && (s.flight.Loading? ==> CurrentLoad(cfg, s.truth, Now(s), s.flight.load))
    && (forall k :: 0 <= k < |s.refreshes| ==> CurrentLoad(cfg, s.truth, Now(s), s.refreshes[k]))
  }

  /** Whatever the cache held: right after an invalidation, every answer of every continuation
      reflects the table at or after it exactly when no load under way holds another row. Then a
      suspension is seen by the next request, and otherwise it can be missed. */
  lemma InvalidationIsImmediateIff<V(!new)>(cfg: Settings, s: State<V>)
    requires Inv(cfg, s)
    ensures var s1 := Apply(cfg, s, Invalidate);
      (forall steps :: Run(cfg, s1, steps) ==> FreshSince(Exec(cfg, s1, steps), |s.given|, Now(s))) <==>
      LoadsCurrent(cfg, s)
  {
    var s1 := Apply(cfg, s, Invalidate);
    InvStep(cfg, s, Invalidate);
    if LoadsCurrent(cfg, s) {
      forall steps | Run(cfg, s1, steps) ensures FreshSince(Exec(cfg, s1, steps), |s.given|, Now(s)) {
        FreshRun(cfg, s1, steps, |s.given|, Now(s));
      }
    } else if s.flight.Loading? && !CurrentLoad(cfg, s.truth, Now(s), s.flight.load) {
      HeldNow(s, Now(s));
      StaleLookup(cfg, s1, LoadFinishes, s.flight.load);
    } else {
      var k :| 0 <= k < |s.refreshes| && !CurrentLoad(cfg, s.truth, Now(s), s.refreshes[k]);
      HeldNow(s, Now(s));
      StaleLookup(cfg, s1, RefreshFinishes(k), s.refreshes[k]);
    }
  }

  /** A lookup misses and its flight reads the row, the row changes and the client is invalidated,
      and only then does the load finish. */
  function OvertakenSteps(): seq<Step<int>> {
    [] + [Lookup] + [EnterFlight] + [Recheck] + [ReadTable] + [Tick(Some(2))] + [Invalidate] + [LoadFinishes] + [Lookup]
  }

  /** The load has read the row and holds it. */
  function HoldingOne(): State<int> {
    Empty(Some(1)).(waiting := 1, flight := Loading(Holding(0, 0, Some(1))))
  }

  lemma ReadsOne(s: State<int>)
    requires s == HoldingOne().(flight := Loading(Reading(0)))
    ensures Moves(s, ReadTable, HoldingOne())
  {
    assert s.truth[0] == Some(1);
  }

  lemma OvertakenLoad() returns (s1: State<int>, s2: State<int>, s3: State<int>)
    ensures Moves(Empty(Some(1)), Lookup, s1) && Moves(s1, EnterFlight, s2)
    ensures Moves(s2, Recheck, s3) && Moves(s3, ReadTable, HoldingOne())
  {
    var e: State<int> := Empty(Some(1));
    s1 := e.(missed := 1);
    s2 := e.(waiting := 1, flight := Rechecking);
    s3 := e.(waiting := 1, flight := Loading(Reading(0)));
    ReadsOne(s3);
  }

  lemma OvertakenAnswers() returns (s1: State<int>, s2: State<int>, s3: State<int>)
    ensures Moves(HoldingOne(), Tick(Some(2)), s1) && Moves(s1, Invalidate, s1)
    ensures Moves(s1, LoadFinishes, s2) && Moves(s2, Lookup, s3)
    ensures s3.truth == [Some(1), Some(2)] && s3.given == [Given(Found(1), 1, 1), Given(Found(1), 1, 1)]
  {
    var g := Given(Found(1), 1, 1);
    assert Copies(1, g) == [g];
    s1 := HoldingOne().(truth := [Some(1)] + [Some(2)]);
    s2 := State(s1.truth, Some(Entry(Some(1), 301, 0, 0)), NoFlight, 0, 0, [], [g]);
    s3 := s2.(given := [g] + [g]);
  }

  lemma InvalidationOvertaken()
    ensures Run(CLIENTS, Empty(Some(1)), OvertakenSteps())
    ensures var s := Exec(CLIENTS, Empty(Some(1)), OvertakenSteps());
      && s.truth == [Some(1), Some(2)]
      && s.given == [Given(Found(1), 1, 1), Given(Found(1), 1, 1)]
      && !FreshSince(s, 0, 1)
  {
    var s1, s2, s3 := OvertakenLoad();
    var s5, s6, s7 := OvertakenAnswers();
    var steps := Extends(Some(1), [], Empty(Some(1)), Lookup, s1);
    steps := Extends(Some(1), steps, s1, EnterFlight, s2);
    steps := Extends(Some(1), steps, s2, Recheck, s3);
    steps := Extends(Some(1), steps, s3, ReadTable, HoldingOne());
    steps := Extends(Some(1), steps, HoldingOne(), Tick(Some(2)), s5);
    steps := Extends(Some(1), steps, s5, Invalidate, s5);
    steps := Extends(Some(1), steps, s5, LoadFinishes, s6);
    steps := Extends(Some(1), steps, s6, Lookup, s7);
    NotFresh(s7.truth, Some(1));
    assert !Fresh(s7.truth, 1, s7.given[0].answer);
  }

  /** One key of the cache as the object it is. Each method is the step of that name. */
  class Slot<V(==)> {
    const cfg: Settings
    var entry: Option<Entry<V>>

    ghost predicate Holds(s: State<V>)
      reads this
    {
      entry == s.entry
    }

    constructor (cfg: Settings)
      ensures this.cfg == cfg && entry == None
    {
      this.cfg := cfg;
      entry := None;
    }

    /** The cache's Get: an expired entry is a miss. */
    method Get(now: Time) returns (hit: bool, value: Option<V>)
      ensures hit <==> entry.Some? && now <= entry.value.expires
      ensures hit ==> value == entry.value.value
    {
      hit, value := false, None;
      if entry.Some? && now <= entry.value.expires {
        hit, value := true, entry.value.value;
      }
    }

    /** The first part of a lookup: an answer from the cache, or a miss. */
    method Lookup(now: Time, ghost s: State<V>) returns (answer: Option<Answer<V>>)
      requires Holds(s) && now == Now(s)
      ensures var s' := Apply(cfg, s, Step.Lookup);
        && Holds(s')
        && (answer.None? ==> s' == s.(missed := s.missed + 1))
        && (answer.Some? ==> |s'.given| == |s.given| + 1 && s'.given[|s.given|].answer == answer.value)
    {
      var hit, value := Get(now);
      if !hit { return None; }
      match value
      case Some(v) => answer := Some(Found(v));
      case None => answer := Some(NotFound);
    }

    /** The load's result enters the cache and becomes the flight's answer. */
    method Finish(load: Load<V>, now: Time, ghost s: State<V>) returns (answer: Answer<V>)
      requires load.Holding? && Holds(s) && now == Now(s) && s.flight == Loading(load)
      modifies this
      ensures var s' := Apply(cfg, s, LoadFinishes);
        && Holds(s')
        && |s'.given| == |s.given| + s.waiting
        && forall k :: |s.given| <= k < |s'.given| ==> s'.given[k].answer == answer
    {
      match load.value
      case Some(v) =>
        entry := Some(Entry(load.value, now + cfg.ttl, load.start, load.read));
        answer := Found(v);
      case None =>
        if cfg.cacheAbsence {
          entry := Some(Entry(None, now + cfg.ttl, load.start, load.read));
          answer := NotFound;
        } else {
          answer := Failed;
        }
    }

    method Remove(ghost s: State<V>)
      requires Holds(s)
      modifies this
      ensures Holds(Apply(cfg, s, Invalidate))
    {
      entry := None;
    }
  }

  datatype CurrencyMeta = CurrencyMeta(code: string, name: string, numericCode: int, decimals: int)

  /** The registry's row loop: a map by code; an empty table is an error. Codes are a primary key. */
  method FillRegistry(rows: seq<CurrencyMeta>) returns (ok: bool, registry: map<string, CurrencyMeta>)
    requires forall i, j :: 0 <= i < j < |rows| ==> rows[i].code != rows[j].code
    ensures ok <==> rows != []
    ensures forall i :: 0 <= i < |rows| ==> rows[i].code in registry && registry[rows[i].code] == rows[i]
    ensures forall c :: c in registry ==> registry[c].code == c && registry[c] in rows
  {
    registry := map[];
    var n := 0;
    while n < |rows|
      invariant 0 <= n <= |rows|
      invariant forall i :: 0 <= i < n ==> rows[i].code in registry && registry[rows[i].code] == rows[i]
      invariant forall c :: c in registry ==> registry[c].code == c && registry[c] in rows
    {
      registry := registry[rows[n].code := rows[n]];
      n := n + 1;
    }
    ok := |registry| > 0;
    if rows != [] { assert rows[0].code in registry; }
  }
}
