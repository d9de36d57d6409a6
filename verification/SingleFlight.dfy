/**
 * One refresh in flight per sub, `crates/libsubby/src/auth/mod.rs:490-642`: the shared cells, and every
 * interleaving of the callers that join, drive, await, abandon and retire them.
 */
module SingleFlight {
  import opened Prelude
  import opened Balance

  type Key = string

  type CallerId = nat

  /** The identity of a shared cell: its place in the order of creation. */
  type CellId = nat

  const EXPIRY_SKEW: int := 60 * NANOS_PER_SECOND

  datatype Tokens = Tokens(access: string, refresh: Option<string>, expiresAt: Option<Timestamp>) {
    /** A token without an expiry is taken to be past it. */
    predicate IsExpired(now: Timestamp) { expiresAt.None? || expiresAt.value - EXPIRY_SKEW <= now }
  }

  datatype RefreshError = RefreshError(permanent: bool, message: string)

  type Refreshed = Result<Tokens, RefreshError>

  // ---- The map of shared cells ----

  /** The cell to await for this key, and whether someone else had made it. */
  function Joined<C>(inflight: map<Key, C>, key: Key, unused: C): (map<Key, C>, C, bool) {
    if key in inflight then (inflight, inflight[key], true) else (inflight[key := unused], unused, false)
  }

  /** The entry goes, unless another cell has taken its place. */
  function Retired<C(==)>(inflight: map<Key, C>, key: Key, cell: C): map<Key, C> {
    if key in inflight && inflight[key] == cell then inflight - {key} else inflight
  }

  class RefreshCell {
    var outcome: Option<Refreshed>

    constructor ()
      ensures outcome == None
    {
      outcome := None;
    }
  }

  class TokenManager {
    var inflight: map<Key, RefreshCell>

    constructor ()
      ensures inflight == map[]
    {
      inflight := map[];
    }

    method CellFor(key: Key) returns (cell: RefreshCell, deduped: bool)
      modifies this
      ensures (inflight, cell, deduped) == Joined(old(inflight), key, cell)
      ensures !deduped ==> fresh(cell) && cell.outcome == None
    {
      if key in inflight {
        return inflight[key], true;
      }
      cell := new RefreshCell();
      inflight := inflight[key := cell];
      deduped := false;
    }

    method Retire(key: Key, cell: RefreshCell)
      modifies this
      ensures inflight == Retired(old(inflight), key, cell)
    {
      if key in inflight && inflight[key] == cell {
        inflight := inflight - {key};
      }
    }
  }

  // ---- One refresh ----

  /** What answers before any cell is touched. */
  function Early(key: Key, tokens: Tokens, force: bool, now: Timestamp): Option<Result<bool, RefreshError>> {
    if !force && !tokens.IsExpired(now) then Some(Ok(false))
    else if tokens.refresh.None? then Some(Err(RefreshError(true, key + " has no refresh token; sign in again")))
    else None
  }

  /** What rereading an adopted credential's source gave, and the reply to a second refresh with it. */
  datatype Reread = Reread(found: Option<Tokens>, second: Refreshed)

  function Recovered(before: Tokens, adopted: bool, reread: Reread, now: Timestamp): Option<Refreshed> {
    if !adopted || reread.found.None? then None
    else
      var found := reread.found.value;
      if found.refresh == before.refresh && found.access == before.access then None
      else if !found.IsExpired(now) then Some(Ok(found))
      else if found.refresh.None? then None
      else Some(reread.second)
  }

  /** What the driver of a cell fills it with. */
  function Driven(first: Refreshed, before: Tokens, adopted: bool, reread: Reread, now: Timestamp): Refreshed {
    if first.Err? && first.error.permanent
    then match Recovered(before, adopted, reread, now) case Some(outcome) => outcome case None => first
    else first
  }

  /** What a caller takes from the shared outcome: its new tokens, and whether its access token is another. */
  function Settled(tokens: Tokens, outcome: Refreshed): (Tokens, Result<bool, RefreshError>) {
    match outcome
    case Ok(newer) => (newer, Ok(newer.access != tokens.access))
    case Err(error) => (tokens, Err(error))
  }

  // ---- Any number of callers ----

  datatype CellState = Empty | Running(driver: CallerId) | Done(outcome: Refreshed)

  datatype Cell = Cell(key: Key, state: CellState)

  datatype Phase = Waiting | Got(outcome: Refreshed) | Finished(result: Result<bool, RefreshError>) | Cancelled {
    predicate Over() { Finished? || Cancelled? }
  }

  /** A caller that has joined a cell. `retire` follows the awaited outcome without a pause to cancel in. */
  datatype Caller = Caller(cell: CellId, tokens: Tokens, adopted: bool, phase: Phase)

  datatype World = World(inflight: map<Key, CellId>, cells: seq<Cell>, callers: map<CallerId, Caller>)

  datatype Step =
    | Call(who: CallerId, key: Key, tokens: Tokens, adopted: bool, force: bool, now: Timestamp)
    | Start(who: CallerId)
    | Finish(who: CallerId, first: Refreshed, reread: Reread, now: Timestamp)
    | Observe(who: CallerId)
    | Retire(who: CallerId)
    | Cancel(who: CallerId)

  function At(w: World, who: CallerId, phase: Phase): World
    requires who in w.callers
  {
    w.(callers := w.callers[who := w.callers[who].(phase := phase)])
  }

  function Filled(w: World, cell: CellId, state: CellState): World
    requires cell < |w.cells|
  {
    w.(cells := w.cells[cell := w.cells[cell].(state := state)])
  }

  predicate IsWaiting(w: World, who: CallerId) {
    who in w.callers && w.callers[who].phase.Waiting? && w.callers[who].cell < |w.cells|
  }

  /** Whether the caller can take this step; one that cannot leaves the world as it is. */
  predicate Enabled(w: World, step: Step) {
    match step
    case Call(who, key, tokens, _, force, now) => who !in w.callers && Early(key, tokens, force, now).None?
    case Start(who) => IsWaiting(w, who) && w.cells[w.callers[who].cell].state.Empty?
    case Finish(who, _, _, _) => IsWaiting(w, who) && w.cells[w.callers[who].cell].state == Running(who)
    case Observe(who) => IsWaiting(w, who) && w.cells[w.callers[who].cell].state.Done?
    case Retire(who) => who in w.callers && w.callers[who].phase.Got? && w.callers[who].cell < |w.cells|
    case Cancel(who) => IsWaiting(w, who)
  }

  function Apply(w: World, step: Step): World {
    if !Enabled(w, step) then w
    else
      match step
      case Call(who, key, tokens, adopted, _, _) =>
        var (inflight, cell, deduped) := Joined(w.inflight, key, |w.cells|);
        World(inflight, if deduped then w.cells else w.cells + [Cell(key, Empty)],
              w.callers[who := Caller(cell, tokens, adopted, Waiting)])
      case Start(who) => Filled(w, w.callers[who].cell, Running(who))
      case Finish(who, first, reread, now) =>
        var caller := w.callers[who];
        Filled(w, caller.cell, Done(Driven(first, caller.tokens, caller.adopted, reread, now)))
      case Observe(who) => At(w, who, Got(w.cells[w.callers[who].cell].state.outcome))
      case Retire(who) =>
        var caller := w.callers[who];
        var (tokens, result) := Settled(caller.tokens, caller.phase.outcome);
        w.(inflight := Retired(w.inflight, w.cells[caller.cell].key, caller.cell),
           callers := w.callers[who := caller.(tokens := tokens, phase := Finished(result))])
      case Cancel(who) =>
        var cell := w.callers[who].cell;
        var freed := if w.cells[cell].state == Running(who) then Filled(w, cell, Empty) else w;
        At(freed, who, Cancelled)
  }

  const START := World(map[], [], map[])

  function Run(steps: seq<Step>): World {
    if steps == [] then START else Apply(Run(steps[..|steps| - 1]), steps[|steps| - 1])
  }

  // ---- What every run keeps ----

  /** A caller's cell exists, and what the caller got or ended with is that cell's outcome. */
  ghost predicate CallerOk(w: World, who: CallerId)
    requires who in w.callers
  {
    var caller := w.callers[who];
    && caller.cell < |w.cells|
    && match caller.phase
       case Got(outcome) => w.cells[caller.cell].state == Done(outcome)
       case Finished(result) =>
         && w.cells[caller.cell].state.Done?
         && Reflects(caller.tokens, result, w.cells[caller.cell].state.outcome)
       case _ => true
  }

  ghost predicate Reflects(tokens: Tokens, result: Result<bool, RefreshError>, outcome: Refreshed) {
    match outcome
    case Ok(newer) => result.Ok? && tokens == newer
    case Err(error) => result == Err(error)
  }

  predicate Uses(w: World, who: CallerId, cell: CellId) { who in w.callers && w.callers[who].cell == cell }

  predicate Entered(w: World, cell: CellId)
    requires cell < |w.cells|
  {
    var key := w.cells[cell].key;
    key in w.inflight && w.inflight[key] == cell
  }

  ghost predicate Retirable(w: World, cell: CellId) {
    exists who :: Uses(w, who, cell) && w.callers[who].phase.Finished?
  }

  /** A running cell is driven by a caller awaiting it; a cell is in the map until a caller of it finishes. */
  ghost predicate CellOk(w: World, cell: CellId)
    requires cell < |w.cells|
  {
    && (exists who :: Uses(w, who, cell))
    && (w.cells[cell].state.Running? ==>
          var driver := w.cells[cell].state.driver;
          Uses(w, driver, cell) && w.callers[driver].phase.Waiting?)
    && (Entered(w, cell) <==> !Retirable(w, cell))
  }

  ghost predicate WorldOk(w: World) {
    && (forall key :: key in w.inflight ==> w.inflight[key] < |w.cells| && w.cells[w.inflight[key]].key == key)
    && (forall who :: who in w.callers ==> CallerOk(w, who))
    && (forall cell: nat :: cell < |w.cells| ==> CellOk(w, cell))
  }

  lemma CallKeeps(w: World, step: Step)
    requires WorldOk(w) && step.Call? && Enabled(w, step)
    ensures WorldOk(Apply(w, step))
  {
    hide Early;
    var next := Apply(w, step);
    var joined := next.callers[step.who].cell;
    forall who | who in next.callers
      ensures CallerOk(next, who)
    {
      assert who == step.who || CallerOk(w, who);
    }
    forall cell: nat | cell < |next.cells|
      ensures CellOk(next, cell)
    {
      if cell < |w.cells| {
        assert CellOk(w, cell);
        var user :| Uses(w, user, cell);
        assert Uses(next, user, cell);
        SameRetirable(w, next, cell);
      } else {
        assert Uses(next, step.who, cell);
        forall who | Uses(next, who, cell)
          ensures !next.callers[who].phase.Finished?
        {
          assert who == step.who || CallerOk(w, who);
        }
      }
    }
  }

  /** Whether some caller of a cell has finished does not change while no caller of it finishes. */
  lemma SameRetirable(w: World, next: World, cell: CellId)
    requires forall who :: who in w.callers ==> who in next.callers && next.callers[who].cell == w.callers[who].cell
    requires forall who :: Uses(next, who, cell) && next.callers[who].phase.Finished? ==>
               Uses(w, who, cell) && w.callers[who].phase.Finished?
    requires forall who :: Uses(w, who, cell) && w.callers[who].phase.Finished? ==> next.callers[who].phase.Finished?
    ensures Retirable(next, cell) <==> Retirable(w, cell)
  {
    if Retirable(w, cell) {
      var who :| Uses(w, who, cell) && w.callers[who].phase.Finished?;
      assert Uses(next, who, cell);
    }
  }

  /** A step of one caller of `cell` that neither adds callers nor touches the map. */
  lemma LocalKeeps(w: World, next: World, who: CallerId)
    requires WorldOk(w) && who in w.callers && !w.callers[who].phase.Finished?
    requires next.inflight == w.inflight && next.callers.Keys == w.callers.Keys
    requires forall other :: other in w.callers && other != who ==> next.callers[other] == w.callers[other]
    requires next.callers[who] == w.callers[who].(phase := next.callers[who].phase)
               && !next.callers[who].phase.Finished?
    requires |next.cells| == |w.cells|
    requires forall cell: nat :: cell < |w.cells| && cell != w.callers[who].cell ==> next.cells[cell] == w.cells[cell]
    requires var mine := w.callers[who].cell;
             && mine < |w.cells|
             && next.cells[mine].key == w.cells[mine].key
             && (w.cells[mine].state.Done? ==> next.cells[mine] == w.cells[mine])
             && (next.callers[who].phase.Got? ==> next.cells[mine].state == Done(next.callers[who].phase.outcome))
             && (next.cells[mine].state.Running? ==>
                   var driver := next.cells[mine].state.driver;
                   && (driver == who || w.cells[mine].state == Running(driver))
                   && Uses(next, driver, mine)
                   && next.callers[driver].phase.Waiting?)
    requires !next.callers[who].phase.Waiting? ==>
               forall cell: nat :: cell < |w.cells| && cell != w.callers[who].cell ==>
                 w.cells[cell].state != Running(who)
    ensures WorldOk(next)
  {
    forall other | other in next.callers
      ensures CallerOk(next, other)
    {
      assert CallerOk(w, other);
    }
    forall cell: nat | cell < |next.cells|
      ensures CellOk(next, cell)
    {
      assert CellOk(w, cell);
      var user :| Uses(w, user, cell);
      assert Uses(next, user, cell);
      SameRetirable(w, next, cell);
    }
  }

  lemma RetireKeeps(w: World, who: CallerId)
    requires WorldOk(w) && Enabled(w, Retire(who))
    ensures WorldOk(Apply(w, Retire(who)))
  {
    var next := Apply(w, Retire(who));
    var mine := w.callers[who].cell;
    assert CallerOk(w, who);
    forall other | other in next.callers
      ensures CallerOk(next, other)
    {
      assert CallerOk(w, other);
    }
    forall cell: nat | cell < |next.cells|
      ensures CellOk(next, cell)
    {
      assert CellOk(w, cell);
      var user :| Uses(w, user, cell);
      assert Uses(next, user, cell);
      if cell == mine {
        assert Uses(next, who, cell) && next.callers[who].phase.Finished?;
      } else {
        SameRetirable(w, next, cell);
      }
    }
  }

  lemma StepKeeps(w: World, step: Step)
    requires WorldOk(w)
    ensures WorldOk(Apply(w, step))
  {
    hide WorldOk, Driven, Early;
    if Enabled(w, step) {
      match step {
        case Call(_, _, _, _, _, _) => CallKeeps(w, step);
        case Retire(who) => RetireKeeps(w, who);
        case _ => OthersKeep(w, step);
      }
    }
  }

  lemma OthersKeep(w: World, step: Step)
    requires WorldOk(w) && Enabled(w, step) && !step.Call? && !step.Retire?
    ensures WorldOk(Apply(w, step))
  {
    hide Driven, Retirable, Entered;
    var cell := w.callers[step.who].cell;
    assert CellOk(w, cell);
    forall other: nat | other < |w.cells| && w.cells[other].state == Running(step.who)
      ensures other == cell
    {
      assert CellOk(w, other);
    }
    LocalKeeps(w, Apply(w, step), step.who);
  }

  lemma {:induction false} RunKeeps(steps: seq<Step>)
    ensures WorldOk(Run(steps))
  {
    hide Apply, WorldOk;
    if steps == [] {
      StartOk();
    } else {
      RunKeeps(steps[..|steps| - 1]);
      StepKeeps(Run(steps[..|steps| - 1]), steps[|steps| - 1]);
    }
  }

  lemma StartOk()
    ensures WorldOk(START)
  {
  }

  // ---- The promises ----

  /** Two cells of one key are never both unfinished, so at most one refresh of a key is running. */
  lemma OneRefreshPerKey(steps: seq<Step>, i: CellId, j: CellId)
    requires var w := Run(steps);
             i < |w.cells| && j < |w.cells| && w.cells[i].key == w.cells[j].key
             && !w.cells[i].state.Done? && !w.cells[j].state.Done?
    ensures i == j
  {
    hide Run;
    var w := Run(steps);
    RunKeeps(steps);
    UnfinishedIsEntered(w, i);
    UnfinishedIsEntered(w, j);
  }

  lemma UnfinishedIsEntered(w: World, cell: CellId)
    requires WorldOk(w) && cell < |w.cells| && !w.cells[cell].state.Done?
    ensures Entered(w, cell)
  {
    assert CellOk(w, cell);
    forall who | Uses(w, who, cell)
      ensures !w.callers[who].phase.Finished?
    {
      assert CallerOk(w, who);
    }
  }

  /** Callers of one cell that finish end alike: all with the same tokens, or all with the same error. */
  lemma SameOutcomeForAll(steps: seq<Step>, a: CallerId, b: CallerId)
    requires var w := Run(steps);
             && a in w.callers && b in w.callers && w.callers[a].cell == w.callers[b].cell
             && w.callers[a].phase.Finished? && w.callers[b].phase.Finished?
    ensures var (ca, cb) := (Run(steps).callers[a], Run(steps).callers[b]);
            && ca.phase.result.Ok? == cb.phase.result.Ok?
            && (ca.phase.result.Ok? ==> ca.tokens == cb.tokens)
            && (ca.phase.result.Err? ==> ca.phase.result == cb.phase.result)
  {
    hide Run;
    RunKeeps(steps);
    assert CallerOk(Run(steps), a) && CallerOk(Run(steps), b);
  }

  /** A filled cell keeps its outcome. */
  lemma {:induction false} OutcomeIsFinal(steps: seq<Step>, more: seq<Step>, cell: CellId)
    requires cell < |Run(steps).cells| && Run(steps).cells[cell].state.Done?
    ensures cell < |Run(steps + more).cells| && Run(steps + more).cells[cell] == Run(steps).cells[cell]
    decreases |more|
  {
    hide Driven, Early;
    if more == [] {
      assert steps + more == steps;
    } else {
      var init := more[..|more| - 1];
      OutcomeIsFinal(steps, init, cell);
      assert (steps + more)[..|steps + more| - 1] == steps + init;
    }
  }

  /** An entry leaves the map only when a caller of that very cell, holding its outcome, retires it. */
  lemma StragglersEvictNothing(steps: seq<Step>, step: Step, key: Key)
    requires var w := Run(steps);
             key in w.inflight && (key !in Apply(w, step).inflight || Apply(w, step).inflight[key] != w.inflight[key])
    ensures var w := Run(steps);
            && step.Retire? && step.who in w.callers && w.callers[step.who].cell == w.inflight[key]
            && w.callers[step.who].phase.Got?
            && w.cells[w.inflight[key]].state == Done(w.callers[step.who].phase.outcome)
            && key !in Apply(w, step).inflight
  {
    hide Run, Driven, Early;
    RunKeeps(steps);
    var w := Run(steps);
    assert CallerOk(w, step.who);
  }

  predicate AllOver(w: World) { forall who :: who in w.callers ==> w.callers[who].phase.Over() }

  /** Everyone who used this cell was cancelled. */
  ghost predicate Abandoned(w: World, cell: CellId) {
    cell < |w.cells| && forall who :: Uses(w, who, cell) ==> w.callers[who].phase.Cancelled?
  }

  /**
   * Once every caller is over, a key is still in the map exactly when all callers of one of its cells were
   * cancelled.
   */
  lemma EntryLeftBehind(steps: seq<Step>, key: Key)
    requires AllOver(Run(steps))
    ensures key in Run(steps).inflight <==>
              exists cell: CellId :: Abandoned(Run(steps), cell) && Run(steps).cells[cell].key == key
  {
    hide Run;
    var w := Run(steps);
    RunKeeps(steps);
    if key in w.inflight {
      var cell := w.inflight[key];
      assert CellOk(w, cell);
      assert Abandoned(w, cell);
    }
    if cell: CellId :| Abandoned(w, cell) && w.cells[cell].key == key {
      assert CellOk(w, cell);
    }
  }

  /** So nothing is left when nobody was cancelled. */
  lemma NothingLeftBehind(steps: seq<Step>)
    requires forall who :: who in Run(steps).callers ==> Run(steps).callers[who].phase.Finished?
    ensures Run(steps).inflight == map[]
  {
    hide Run;
    var w := Run(steps);
    RunKeeps(steps);
    forall key
      ensures key !in w.inflight
    {
      if key in w.inflight {
        SomeUserUnfinished(w, key);
      }
    }
  }

  lemma SomeUserUnfinished(w: World, key: Key)
    requires WorldOk(w) && key in w.inflight
    ensures exists who :: Uses(w, who, w.inflight[key]) && !w.callers[who].phase.Finished?
  {
    assert CellOk(w, w.inflight[key]);
    assert Entered(w, w.inflight[key]);
  }

  /** Whoever is not over is not stuck: some step on its cell is possible, be it its own or the driver's. */
  lemma SomeoneCanMove(steps: seq<Step>, who: CallerId, reread: Reread, first: Refreshed, now: Timestamp)
    requires who in Run(steps).callers && !Run(steps).callers[who].phase.Over()
    ensures var w := Run(steps);
            || Enabled(w, Start(who)) || Enabled(w, Observe(who)) || Enabled(w, Retire(who))
            || exists driver :: Uses(w, driver, w.callers[who].cell) && Enabled(w, Finish(driver, first, reread, now))
  {
    hide Run;
    var w := Run(steps);
    RunKeeps(steps);
    assert CallerOk(w, who);
    var cell := w.callers[who].cell;
    assert CellOk(w, cell);
    if w.cells[cell].state.Running? {
      var driver := w.cells[cell].state.driver;
      assert Uses(w, driver, cell) && Enabled(w, Finish(driver, first, reread, now));
    }
  }

  /** One caller, cancelled while it drives: its cell stays in the map, and the next caller joins it. */
  lemma CancelledEntryStays(key: Key, tokens: Tokens, now: Timestamp)
    requires tokens.refresh.Some?
    ensures var w := Run([Call(0, key, tokens, false, true, now), Start(0), Cancel(0)]);
            && AllOver(w) && key in w.inflight && w.inflight[key] == 0
            && Apply(w, Call(1, key, tokens, false, true, now)).callers[1].cell == 0
  {
    var call := Call(0, key, tokens, false, true, now);
    assert [call, Start(0), Cancel(0)][..2] == [call, Start(0)];
    assert [call, Start(0)][..1] == [call];
    assert [call][..0] == [];
    assert Run([call]) == Apply(START, call);
    assert Run([call, Start(0)]) == Apply(Run([call]), Start(0));
  }

  // ---- What a refresh hands out ----

  /** This step is where the caller joined, with these tokens. */
  ghost predicate Joins(steps: seq<Step>, n: nat, who: CallerId) {
    n < |steps| && steps[n].Call? && steps[n].who == who && Enabled(Run(steps[..n]), steps[n])
  }

  /** What a caller that joined with `tokens` ends with when its cell holds `outcome`. */
  ghost predicate Took(tokens: Tokens, outcome: Refreshed, after: Tokens, result: Result<bool, RefreshError>) {
    match outcome
    case Ok(newer) => after == newer && result == Ok(newer.access != tokens.access)
    case Err(error) => after == tokens && result == Err(error)
  }

  /** Until it finishes a caller holds the tokens it joined with; then it has taken its cell's outcome. */
  ghost predicate Keeps(w: World, who: CallerId, call: Step)
    requires call.Call?
  {
    && who in w.callers && w.callers[who].cell < |w.cells|
    && var caller := w.callers[who];
       match caller.phase
       case Finished(result) =>
         && w.cells[caller.cell].state.Done?
         && Took(call.tokens, w.cells[caller.cell].state.outcome, caller.tokens, result)
       case _ => caller.tokens == call.tokens && caller.adopted == call.adopted
  }

  lemma {:induction false} CallerKeeps(steps: seq<Step>, n: nat, who: CallerId)
    requires Joins(steps, n, who)
    ensures Keeps(Run(steps), who, steps[n])
    decreases |steps|
  {
    hide Apply, Keeps, Enabled;
    var last := |steps| - 1;
    var init := steps[..last];
    RunKeeps(init);
    if n == last {
      JoinKeeps(Run(init), steps[n]);
    } else {
      assert init[..n] == steps[..n];
      CallerKeeps(init, n, who);
      StepKeepsCaller(Run(init), steps[last], who, steps[n]);
    }
  }

  lemma JoinKeeps(w: World, call: Step)
    requires call.Call? && Enabled(w, call) && WorldOk(w)
    ensures Keeps(Apply(w, call), call.who, call)
  {
    hide Early;
  }

  lemma StepKeepsCaller(w: World, step: Step, who: CallerId, call: Step)
    requires call.Call? && Keeps(w, who, call) && WorldOk(w)
    ensures Keeps(Apply(w, step), who, call)
  {
    hide Early, Driven, CellOk;
    assert CallerOk(w, who);
  }

  /** A cell that was filled stays so, with what its driver filled it with. */
  lemma FilledStays(steps: seq<Step>, finish: Step, more: seq<Step>, cell: CellId)
    requires finish.Finish? && Enabled(Run(steps), finish) && cell == Run(steps).callers[finish.who].cell
    ensures var (now, end) := (Apply(Run(steps), finish), Run(steps + [finish] + more));
            && cell < |now.cells| && now.cells[cell].state.Done?
            && cell < |end.cells| && end.cells[cell] == now.cells[cell]
  {
    hide Driven;
    var all := steps + [finish];
    assert all[..|all| - 1] == steps;
    OutcomeIsFinal(all, more, cell);
  }

  /** Newer than what was refused: the source holds other tokens, the sub having been adopted from it. */
  predicate IsNewer(before: Tokens, adopted: bool, found: Option<Tokens>) {
    adopted && found.Some? && (found.value.access != before.access || found.value.refresh != before.refresh)
  }

  /** More than a minute is left. */
  predicate IsFresh(tokens: Tokens, now: Timestamp) {
    tokens.expiresAt.Some? && tokens.expiresAt.value > now + 60 * NANOS_PER_SECOND
  }

  /**
   * What a finished refresh fills its cell with: the vendor's tokens, or its error if that is only for now; after a
   * refusal for good the source's tokens if they are newer and fresh, what refreshing them gave if they are newer,
   * not fresh and can be refreshed, and otherwise the refusal.
   */
  lemma FilledWith(w: World, finish: Step)
    requires finish.Finish? && Enabled(w, finish)
    ensures var (driver, next) := (w.callers[finish.who], Apply(w, finish));
            var (first, reread) := (finish.first, finish.reread);
            var newer := IsNewer(driver.tokens, driver.adopted, reread.found);
            next.cells[driver.cell].state
            == Done(if first.Ok? || !first.error.permanent || !newer then first
                    else if IsFresh(reread.found.value, finish.now) then Ok(reread.found.value)
                    else if reread.found.value.refresh.Some? then reread.second
                    else first)
  {
  }

  /**
   * A sub needs a new login only when the vendor refused its token for good and the source, if adopted, has
   * nothing newer, or something newer that is refused for good too.
   */
  lemma NeedsLogin(w: World, finish: Step)
    requires finish.Finish? && Enabled(w, finish)
    ensures var (driver, state) := (w.callers[finish.who], Apply(w, finish).cells[w.callers[finish.who].cell].state);
            var (first, found, second) := (finish.first, finish.reread.found, finish.reread.second);
            var newer := IsNewer(driver.tokens, driver.adopted, found);
            && state.Done?
            && ((state.outcome.Err? && state.outcome.error.permanent) <==>
                  && first.Err? && first.error.permanent
                  && (newer ==>
                        && !IsFresh(found.value, finish.now)
                        && (found.value.refresh.Some? ==> second.Err? && second.error.permanent)))
  {
    hide IsNewer, IsFresh, Apply;
    FilledWith(w, finish);
  }

  /**
   * In any run: whoever finishes on a cell that a refresh filled with new tokens has exactly those tokens, and is
   * told whether its access token is another than the one it joined with; a refresh that failed leaves it the
   * tokens it joined with and the error.
   */
  lemma AllTakeTheRefresh(steps: seq<Step>, finish: Step, more: seq<Step>, who: CallerId, n: nat)
    requires finish.Finish? && Enabled(Run(steps), finish)
    requires var end := Run(steps + [finish] + more);
             && who in end.callers && end.callers[who].cell == Run(steps).callers[finish.who].cell
             && end.callers[who].phase.Finished?
    requires Joins(steps + [finish] + more, n, who)
    ensures var (w, end) := (Run(steps), Run(steps + [finish] + more));
            var (driver, caller) := (w.callers[finish.who], end.callers[who]);
            var (first, found, joined) := (finish.first, finish.reread.found, (steps + [finish] + more)[n].tokens);
            var newer := IsNewer(driver.tokens, driver.adopted, found);
            && (first.Ok? ==>
                  && caller.tokens == first.value
                  && caller.phase.result == Ok(first.value.access != joined.access))
            && (first.Err? && (!first.error.permanent || !newer) ==>
                  caller.tokens == joined && caller.phase.result == Err(first.error))
            && (first.Err? && first.error.permanent && newer && IsFresh(found.value, finish.now) ==>
                  caller.tokens == found.value && caller.phase.result == Ok(found.value.access != joined.access))
            && (first.Err? && first.error.permanent && newer && !IsFresh(found.value, finish.now) ==>
                  Took(joined, if found.value.refresh.Some? then finish.reread.second else first,
                       caller.tokens, caller.phase.result))
  {
    hide Run, Apply, IsNewer, IsFresh;
    var all := steps + [finish] + more;
    var cell := Run(steps).callers[finish.who].cell;
    CallerKeeps(all, n, who);
    FilledWith(Run(steps), finish);
    FilledStays(steps, finish, more, cell);
  }

  /** A call goes to no cell while its tokens are fresh, unless it is forced, nor without a refresh token. */
  lemma CallsThatJoin(w: World, call: Step)
    requires call.Call? && call.who !in w.callers
    ensures Enabled(w, call) <==> (call.force || !IsFresh(call.tokens, call.now)) && call.tokens.refresh.Some?
    ensures var early := Early(call.key, call.tokens, call.force, call.now);
            && (!call.force && IsFresh(call.tokens, call.now) ==> early == Some(Ok(false)))
            && ((call.force || !IsFresh(call.tokens, call.now)) && call.tokens.refresh.None? ==>
                  early.Some? && early.value.Err? && early.value.error.permanent)
  {
  }
}
