/**
  Which session id reaches which provider (go/internal/runtime/session_dal.go and the run paths
  of go/internal/runtime/agent_loop.go).
 */
module Sessions {
  import opened Wrappers
  import BreakerSpec
  import opened ChainSpec
  import opened Chain

  /** A conversation: a user, a channel and a thread in it. */
  datatype Thread = Thread(user: string, channel: string, thread: string)

  datatype Key = Key(at: Thread, provider: string)

  datatype Row = Row(cliSessionId: string, initializedAt: Option<real>, lastUsedAt: real)

  type Rows = map<Key, Row>

  predicate DroppedBy(k: Key, user: string, provider: string) {
    k.at.user == user && k.provider == provider
  }

  function Upserted(rows: Rows, k: Key, sid: string, now: real): Rows {
    rows[k := Row(sid, if k in rows && rows[k].initializedAt.Some? then rows[k].initializedAt else Some(now), now)]
  }

  function DroppedFrom(rows: Rows, user: string, provider: string): Rows {
    map k | k in rows && !DroppedBy(k, user, provider) :: rows[k]
  }

  /** What a lookup makes of a row: an empty id is none. */
  function Cached(rows: Rows, k: Key): Option<string> {
    if k in rows && rows[k].cliSessionId != "" then Some(rows[k].cliSessionId) else None
  }

  predicate Initialized(rows: Rows, k: Key) {
    k in rows && rows[k].initializedAt.Some?
  }

  class InMemorySessionsRepo {
    var rows: Rows

    constructor ()
      ensures rows == map[]
    {
      rows := map[];
    }

    method Get(k: Key) returns (row: Option<Row>)
      ensures row == if k in rows then Some(rows[k]) else None
    {
      if k !in rows {
        return None;
      }
      return Some(rows[k]);
    }

    method UpsertAfterTurn(k: Key, sid: string, now: real)
      modifies this
      ensures rows == Upserted(old(rows), k, sid, now)
    {
      var initializedAt := Some(now);
      if k in rows && rows[k].initializedAt.Some? {
        initializedAt := rows[k].initializedAt;
      }
      rows := rows[k := Row(sid, initializedAt, now)];
    }

    /** Deletes while ranging over the rows, in any order. */
    method DropForProvider(user: string, provider: string) returns (dropped: nat)
      modifies this
      ensures rows == DroppedFrom(old(rows), user, provider)
      ensures dropped == |old(rows)| - |rows|
    {
      dropped := 0;
      var todo := rows.Keys;
      while todo != {}
        invariant todo <= old(rows).Keys
        invariant forall k :: k in rows <==> k in old(rows) && (k in todo || !DroppedBy(k, user, provider))
        invariant forall k :: k in rows ==> rows[k] == old(rows)[k]
        invariant dropped == |old(rows)| - |rows|
        decreases |todo|
      {
        var k :| k in todo;
        if k.at.user == user && k.provider == provider {
          assert k in rows;
          assert (rows - {k}).Keys == rows.Keys - {k};
          rows := rows - {k};
          dropped := dropped + 1;
        }
        todo := todo - {k};
      }
    }
  }

  class DBSessionDal {
    const repo: InMemorySessionsRepo

    constructor (repo: InMemorySessionsRepo)
      ensures this.repo == repo
    {
      this.repo := repo;
    }

    method LookupSessionID(k: Key) returns (sid: string, ok: bool)
      ensures (sid, ok) == if k in repo.rows then (repo.rows[k].cliSessionId, true) else ("", false)
    {
      var row := repo.Get(k);
      if row.None? {
        return "", false;
      }
      return row.value.cliSessionId, true;
    }

    method IsInitialized(k: Key) returns (initialized: bool)
      ensures initialized <==> Initialized(repo.rows, k)
    {
      var row := repo.Get(k);
      return row.Some? && row.value.initializedAt.Some?;
    }

    method RecordTurn(k: Key, sid: string, now: real)
      modifies repo
      ensures repo.rows == Upserted(old(repo.rows), k, sid, now)
    {
      repo.UpsertAfterTurn(k, sid, now);
    }
  }

  // ----- what the outside sees ----------------------------------------------------

  /**
    `primary` is the conversation's key at the primary provider, `bootstrap` tells whether the
    bootstrap files went along.
   */
  datatype Event =
    | Sent(to: Key, sessionId: Option<string>, primary: Key, bootstrap: bool)
    | Returned(from: Key, newSessionId: Option<string>, at: real)
    | Dropped(user: string, provider: string)

  /** Everything so far, oldest first. */
  datatype Log = Nothing | Then(before: Log, last: Event)

  /** A session id worth remembering. */
  predicate Tells(e: Event, k: Key) {
    e.Returned? && e.from == k && e.newSessionId.Some? && e.newSessionId.value != ""
  }

  predicate Drops(e: Event, k: Key) {
    e.Dropped? && DroppedBy(k, e.user, e.provider)
  }

  /** The last non-empty id the provider returned on the key since the last drop. */
  function LastTold(log: Log, k: Key): Option<string> {
    match log
    case Nothing => None
    case Then(before, e) =>
      if Tells(e, k) then e.newSessionId else if Drops(e, k) then None else LastTold(before, k)
  }

  /** When the first of those was returned. */
  function FirstToldAt(log: Log, k: Key): Option<real> {
    match log
    case Nothing => None
    case Then(before, e) =>
      if Drops(e, k) then None
      else if Tells(e, k) && FirstToldAt(before, k).None? then Some(e.at)
      else FirstToldAt(before, k)
  }

  /**
    Every provider was always sent the last id it had told on that key, or none, and the
    bootstrap exactly while the primary had told none.
   */
  predicate Faithful(log: Log) {
    match log
    case Nothing => true
    case Then(before, Sent(to, sid, primary, bootstrap)) =>
      Faithful(before) && sid == LastTold(before, to) && (bootstrap <==> LastTold(before, primary).None?)
    case Then(before, _) => Faithful(before)
  }

  /** When the last of those was returned. */
  function LastToldAt(log: Log, k: Key): Option<real> {
    match log
    case Nothing => None
    case Then(before, e) =>
      if Tells(e, k) then Some(e.at) else if Drops(e, k) then None else LastToldAt(before, k)
  }

  // ----- the loop's operations on the rows, and what is seen of them ------------------

  /** The rows now, and everything that was seen so far. */
  datatype Memory = Memory(rows: Rows, log: Log)

  const FORGETFUL := Memory(map[], Nothing)

  function SentOne(m: Memory, to: Key, primary: Key, bootstrap: bool): Memory {
    m.(log := Then(m.log, Sent(to, Cached(m.rows, to), primary, bootstrap)))
  }

  /** The backend's reply is seen, before anything is made of it. */
  function Replied(m: Memory, from: Key, reply: Reply, now: real): Memory {
    if Failure(reply).Some? then m
    else m.(log := Then(m.log, Returned(from, reply.output.value.newSessionId, now)))
  }

  /** What the loop makes of a new session id. */
  function Stored(m: Memory, k: Key, newSessionId: Option<string>, now: real): Memory {
    if newSessionId.Some? && newSessionId.value != ""
    then m.(rows := Upserted(m.rows, k, newSessionId.value, now))
    else m
  }

  function Forgotten(m: Memory, user: string, provider: string): Memory {
    Memory(DroppedFrom(m.rows, user, provider), Then(m.log, Dropped(user, provider)))
  }

  function SingleTurn(m: Memory, at: Thread, entry: ProviderEntry, registered: bool, reply: Reply, now: real): Memory {
    var k := Key(at, entry.id);
    if !registered then m
    else
      var replied := Replied(SentOne(m, k, k, !Initialized(m.rows, k)), k, reply, now);
      if Failure(reply).Some? then replied else Stored(replied, k, reply.output.value.newSessionId, now)
  }

  // The registry names the id here.
  const UNKNOWN_BACKEND := CliError(BreakerSpec.Unknown, "clibackend: unknown backend id")

  /** What the chain hears of a provider: its backend's reply, or that it has none. */
  function Heard(backends: set<string>, entry: ProviderEntry, reply: Reply): Reply {
    if entry.id in backends then reply else Reply(None, Some(UNKNOWN_BACKEND))
  }

  function HeardLegs(backends: set<string>, order: seq<ProviderEntry>, legs: seq<Leg>): (r: seq<Leg>)
    requires |order| == |legs|
    ensures |r| == |legs|
    ensures forall i :: 0 <= i < |legs| ==> r[i] == legs[i].(reply := Heard(backends, order[i], legs[i].reply))
  {
    seq(|legs|, i requires 0 <= i < |legs| => legs[i].(reply := Heard(backends, order[i], legs[i].reply)))
  }

  /**
    The first `n` attempts of a walk: a provider that is not skipped and has a backend is sent the
    input, and replies.
   */
  function AskedUpTo(
    m: Memory, primary: Key, bootstrap: bool, backends: set<string>, order: seq<ProviderEntry>, legs: seq<Leg>,
    attempts: seq<Attempt>, n: nat, now: real): Memory
    requires n <= |attempts| <= |order| == |legs|
  {
    if n == 0 then m
    else
      var asked := AskedUpTo(m, primary, bootstrap, backends, order, legs, attempts, n - 1, now);
      var k := Key(primary.at, order[n - 1].id);
      if attempts[n - 1].skipped || order[n - 1].id !in backends then asked
      else Replied(SentOne(asked, k, primary, bootstrap), k, legs[n - 1].reply, now)
  }

  /** The id is stored under the provider the walk's result names. */
  function FallbackTurn(
    m: Memory, primary: Key, backends: set<string>, order: seq<ProviderEntry>, legs: seq<Leg>,
    result: TurnResult, now: real): Memory
    requires |result.attempts| <= |order| == |legs|
  {
    var asked := AskedUpTo(m, primary, !Initialized(m.rows, primary), backends, order, legs,
                           result.attempts, |result.attempts|, now);
    if result.output.None? then asked
    else Stored(asked, Key(primary.at, result.selected), result.output.value.newSessionId, now)
  }

  /** A fallback turn carries what its walk of the chain starts from, and the result of that walk. */
  datatype Op =
    | Single(at: Thread, entry: ProviderEntry, registered: bool, reply: Reply, now: real)
    | Fallback(primary: Key, backends: set<string>, cfg: BreakerSpec.Config, views: Views, order: seq<ProviderEntry>,
               legs: seq<Leg>, result: TurnResult, now: real)
    | Drop(user: string, provider: string)

  /** The result is what the chain answers after a walk that hears these backends. */
  ghost predicate Happens(op: Op) {
    op.Fallback? ==>
      && |op.result.attempts| <= |op.order| == |op.legs|
      && TurnAnswer(WalkUpTo(op.cfg, op.views, op.order, HeardLegs(op.backends, op.order, op.legs), |op.order|),
                    op.result)
  }

  ghost function Next(m: Memory, op: Op): Memory
    requires Happens(op)
  {
    match op
    case Single(at, entry, registered, reply, now) => SingleTurn(m, at, entry, registered, reply, now)
    case Fallback(primary, backends, _, _, order, legs, result, now) =>
      FallbackTurn(m, primary, backends, order, legs, result, now)
    case Drop(user, provider) => Forgotten(m, user, provider)
  }

  /** The operations so far, oldest first. */
  datatype Run = Idle | Did(before: Run, last: Op)

  ghost predicate IsRun(run: Run) {
    run.Did? ==> IsRun(run.before) && Happens(run.last)
  }

  ghost function After(m: Memory, run: Run): Memory
    requires IsRun(run)
  {
    match run
    case Idle => m
    case Did(before, op) => Next(After(m, before), op)
  }

  // ----- the rows mirror the log ---------------------------------------------------

  /** The rows hold what the log says about every key, the times of the first and the last id included. */
  ghost predicate Mirrors(rows: Rows, log: Log) {
    && (forall k :: k in rows <==> LastTold(log, k).Some?)
    && (forall k :: k in rows ==>
          && LastTold(log, k) == Some(rows[k].cliSessionId) && rows[k].cliSessionId != ""
          && rows[k].initializedAt == FirstToldAt(log, k) && rows[k].initializedAt.Some?
          && LastToldAt(log, k) == Some(rows[k].lastUsedAt))
  }

  ghost predicate Sound(m: Memory) {
    Mirrors(m.rows, m.log) && Faithful(m.log)
  }

  lemma {:induction false} FirstIffLast(log: Log, k: Key)
    ensures FirstToldAt(log, k).Some? <==> LastTold(log, k).Some?
  {
    if log.Then? {
      FirstIffLast(log.before, k);
    }
  }

  /** Storing a reply's id under the provider that replied keeps the rows equal to the history. */
  lemma ReplyMirrors(m: Memory, k: Key, reply: Reply, now: real)
    requires Sound(m) && Failure(reply).None?
    ensures Sound(Stored(Replied(m, k, reply, now), k, reply.output.value.newSessionId, now))
  {
    FirstIffLast(m.log, k);
  }

  /** As long as nobody succeeds, a walk only sends, and the rows stay. */
  lemma {:induction false} AskingMirrors(
    m: Memory, primary: Key, bootstrap: bool, backends: set<string>, order: seq<ProviderEntry>, legs: seq<Leg>,
    attempts: seq<Attempt>, n: nat, now: real)
    requires n <= |attempts| <= |order| == |legs| && Sound(m) && (bootstrap <==> !Initialized(m.rows, primary))
    requires forall i :: 0 <= i < n ==>
               attempts[i].skipped || order[i].id !in backends || Failure(legs[i].reply).Some?
    ensures var asked := AskedUpTo(m, primary, bootstrap, backends, order, legs, attempts, n, now);
            Sound(asked) && asked.rows == m.rows
  {
    if n > 0 {
      AskingMirrors(m, primary, bootstrap, backends, order, legs, attempts, n - 1, now);
    }
  }

  /** Who succeeds in a walk: at most its last attempt, which is the selected provider's, with its own reply. */
  lemma WalkHears(op: Op)
    requires op.Fallback? && Happens(op)
    ensures var k := if op.result.output.Some? then |op.result.attempts| - 1 else |op.result.attempts|;
            && 0 <= k <= |op.order|
            && (forall i :: 0 <= i < k ==>
                  op.result.attempts[i].skipped || op.order[i].id !in op.backends || Failure(op.legs[i].reply).Some?)
            && (op.result.output.Some? ==>
                  && k < |op.order| && op.result.selected == op.order[k].id && !op.result.attempts[k].skipped
                  && op.order[k].id in op.backends && Failure(op.legs[k].reply).None?
                  && op.result.output == op.legs[k].reply.output)
  {
    hide WalkUpTo, TurnAnswer, Dispatched, Reached;
    var heard := HeardLegs(op.backends, op.order, op.legs);
    TurnReports(op.cfg, op.views, op.order, heard, op.result);
    if op.result.output.Some? {
      SuccessIsLast(op.cfg, op.views, op.order, heard, op.result);
    } else {
      FailureIsExplained(op.cfg, op.views, op.order, heard, op.result);
    }
    var k := if op.result.output.Some? then |op.result.attempts| - 1 else |op.result.attempts|;
    forall i | 0 <= i < k
      ensures op.result.attempts[i].skipped || op.order[i].id !in op.backends || Failure(op.legs[i].reply).Some?
    {
      assert Reports(op.result.attempts[i], heard[i], Reached(op.cfg, op.views, op.order, heard, i));
    }
    if op.result.output.Some? {
      assert Reports(op.result.attempts[k], heard[k], Reached(op.cfg, op.views, op.order, heard, k));
    }
  }

  /** After a fallback turn the rows hold the new id of the provider that replied. */
  lemma FallbackIsSound(m: Memory, op: Op)
    requires Sound(m) && op.Fallback? && Happens(op)
    ensures Sound(Next(m, op))
  {
    hide Sound, WalkUpTo, TurnAnswer;
    WalkHears(op);
    var Fallback(primary, backends, _, _, order, legs, result, now) := op;
    var bootstrap, n := !Initialized(m.rows, primary), |result.attempts|;
    if result.output.None? {
      AskingMirrors(m, primary, bootstrap, backends, order, legs, result.attempts, n, now);
    } else {
      AskingMirrors(m, primary, bootstrap, backends, order, legs, result.attempts, n - 1, now);
      var asked := AskedUpTo(m, primary, bootstrap, backends, order, legs, result.attempts, n - 1, now);
      var k := Key(primary.at, order[n - 1].id);
      SendingIsSound(asked, k, primary, bootstrap);
      ReplyMirrors(SentOne(asked, k, primary, bootstrap), k, legs[n - 1].reply, now);
    }
  }

  lemma SendingIsSound(m: Memory, to: Key, primary: Key, bootstrap: bool)
    requires Sound(m) && (bootstrap <==> !Initialized(m.rows, primary))
    ensures Sound(SentOne(m, to, primary, bootstrap))
  {
  }

  lemma StepIsSound(m: Memory, op: Op)
    requires Sound(m) && Happens(op)
    ensures Sound(Next(m, op))
  {
    match op
    case Single(at, entry, registered, reply, now) =>
      var k := Key(at, entry.id);
      if registered && Failure(reply).None? {
        ReplyMirrors(SentOne(m, k, k, !Initialized(m.rows, k)), k, reply, now);
      }
    case Fallback(_, _, _, _, _, _, _, _) => FallbackIsSound(m, op);
    case Drop(user, provider) =>
  }

  /**
    In every run of turns, fallbacks and drops, each provider is sent the last id its own backend
    replied with on that key, or none, and the rows hold those ids and the times of the first of them.
   */
  lemma {:induction false} EveryRunIsFaithful(run: Run)
    requires IsRun(run)
    ensures Sound(After(FORGETFUL, run))
  {
    if run.Did? {
      EveryRunIsFaithful(run.before);
      StepIsSound(After(FORGETFUL, run.before), run.last);
    }
  }

  // ----- the initialisation time is written once ---------------------------------------

  predicate EverDrops(run: Run, k: Key) {
    run.Did? && (EverDrops(run.before, k) || (run.last.Drop? && DroppedBy(k, run.last.user, run.last.provider)))
  }

  lemma {:induction false} AskingKeepsRows(
    m: Memory, primary: Key, bootstrap: bool, backends: set<string>, order: seq<ProviderEntry>, legs: seq<Leg>,
    attempts: seq<Attempt>, n: nat, now: real)
    requires n <= |attempts| <= |order| == |legs|
    ensures AskedUpTo(m, primary, bootstrap, backends, order, legs, attempts, n, now).rows == m.rows
  {
    if n > 0 {
      AskingKeepsRows(m, primary, bootstrap, backends, order, legs, attempts, n - 1, now);
    }
  }

  /** A row's initialisation time, once set, stays through every run that does not drop its key. */
  lemma {:induction false} InitializedOnce(m: Memory, run: Run, k: Key)
    requires IsRun(run) && Initialized(m.rows, k) && !EverDrops(run, k)
    ensures var rows := After(m, run).rows; k in rows && rows[k].initializedAt == m.rows[k].initializedAt
  {
    hide WalkUpTo, TurnAnswer;
    if run.Did? {
      InitializedOnce(m, run.before, k);
      var m1 := After(m, run.before);
      if run.last.Fallback? {
        var Fallback(primary, backends, _, _, order, legs, result, now) := run.last;
        AskingKeepsRows(m1, primary, !Initialized(m1.rows, primary), backends, order, legs,
                        result.attempts, |result.attempts|, now);
      }
    }
  }

  // ----- the loop --------------------------------------------------------------------

  /** What the loop gives a backend, as far as it matters here. */
  datatype TurnInput = TurnInput(prompt: string, bootstrap: bool, sessionId: Option<string>, model: Option<string>)

  class AgentLoop {
    const sessionDal: DBSessionDal
    const chain: ProviderChain
    /** What was seen so far. */
    ghost var log: Log

    constructor (sessionDal: DBSessionDal, chain: ProviderChain)
      requires sessionDal.repo.rows == map[]
      ensures this.sessionDal == sessionDal && this.chain == chain && View() == FORGETFUL
    {
      this.sessionDal := sessionDal;
      this.chain := chain;
      log := Nothing;
    }

    ghost function View(): Memory
      reads this, sessionDal.repo
    {
      Memory(sessionDal.repo.rows, log)
    }

    /** The breaker is nobody else's. */
    ghost predicate Apart()
      reads chain.breaker.Repr()
    {
      this !in chain.breaker.Repr() && sessionDal.repo !in chain.breaker.Repr()
    }

    /** The input for one provider: its own session id and model, whatever the input carried before. */
    method Hydrated(to: Key, model: string, inp: TurnInput) returns (sent: TurnInput)
      ensures sent == TurnInput(inp.prompt, inp.bootstrap, Cached(sessionDal.repo.rows, to),
                                if model != "" then Some(model) else None)
    {
      var cached, ok := sessionDal.LookupSessionID(to);
      sent := inp.(sessionId := None);
      if cached != "" {
        sent := sent.(sessionId := Some(cached));
      }
      sent := sent.(model := if model != "" then Some(model) else None);
    }

    /** The backend of `to` gets the input and replies. */
    ghost method See(to: Key, sent: TurnInput, primary: Key, reply: Reply, now: real)
      requires sent.sessionId == Cached(sessionDal.repo.rows, to)
      modifies `log
      ensures View() == Replied(SentOne(old(View()), to, primary, sent.bootstrap), to, reply, now)
    {
      log := Then(log, Sent(to, sent.sessionId, primary, sent.bootstrap));
      if Failure(reply).None? {
        log := Then(log, Returned(to, reply.output.value.newSessionId, now));
      }
    }

    /** What the chain calls for one of its entries. */
    method Dispatch(at: Thread, entry: ProviderEntry, inp: TurnInput, backends: set<string>, reply: Reply, now: real,
                    ghost primary: Key)
      returns (heard: Reply)
      modifies `log
      ensures heard == Heard(backends, entry, reply)
      ensures var k := Key(at, entry.id);
              View() == if entry.id !in backends then old(View())
                        else Replied(SentOne(old(View()), k, primary, inp.bootstrap), k, reply, now)
    {
      var sent := Hydrated(Key(at, entry.id), entry.model, inp);
      if entry.id !in backends {
        return Reply(None, Some(UNKNOWN_BACKEND));
      }
      See(Key(at, entry.id), sent, primary, reply, now);
      return reply;
    }

    /** What happens after a successful turn. */
    method Remember(k: Key, out: CliTurnOutput, now: real)
      modifies sessionDal.repo
      ensures View() == Stored(old(View()), k, out.newSessionId, now)
    {
      if out.newSessionId.Some? && out.newSessionId.value != "" {
        sessionDal.RecordTurn(k, out.newSessionId.value, now);
      }
    }

    /** One turn of the primary provider; `registered` tells whether it has a backend. */
    method RunSingle(at: Thread, entry: ProviderEntry, registered: bool, prompt: string, reply: Reply, now: real)
      returns (r: Result<string>)
      modifies `log, sessionDal.repo
      ensures View() == SingleTurn(old(View()), at, entry, registered, reply, now)
      ensures r == if !registered then Err("unknown_provider")
                   else match Failure(reply)
                     case None => Ok(reply.output.value.text)
                     case Some(e) => Err(e.message)
    {
      var k := Key(at, entry.id);
      var initialized := sessionDal.IsInitialized(k);
      var sent := Hydrated(k, entry.model, TurnInput(prompt, !initialized, None, None));
      if !registered {
        return Err("unknown_provider");
      }
      See(k, sent, k, reply, now);
      if reply.error.Some? {
        return Err(reply.error.value.message);
      }
      if reply.output.None? {
        return Err("backend returned nil output and nil error");
      }
      Remember(k, reply.output.value, now);
      return Ok(reply.output.value.text);
    }

    /** The dispatches of a walk, in order. */
    method AskAll(primary: Key, base: TurnInput, backends: set<string>, order: seq<ProviderEntry>, legs: seq<Leg>,
                  attempts: seq<Attempt>, now: real)
      requires |attempts| <= |order| == |legs|
      modifies `log
      ensures View() == AskedUpTo(old(View()), primary, base.bootstrap, backends, order, legs, attempts, |attempts|,
                                  now)
    {
      for i := 0 to |attempts|
        invariant View() == AskedUpTo(old(View()), primary, base.bootstrap, backends, order, legs, attempts, i, now)
      {
        if !attempts[i].skipped {
          var heard := Dispatch(primary.at, order[i], base, backends, legs[i].reply, now, primary);
        }
      }
    }

    /**
      One turn of the fallback chain. The breaker stands as `before` says; what the backends reply
      and the clocks read is a script, one leg an entry of the dispatch order.
     */
    method RunWithFallback(primary: Key, backends: set<string>, prompt: string, legs: seq<Leg>, now: real,
                           ghost before: Views)
      returns (r: Result<string>, ghost result: TurnResult, ghost w: Walk)
      requires |legs| == |chain.entries| && chain.Stands(before) && Apart()
      modifies `log, sessionDal.repo, chain.breaker.Repr()
      ensures chain.Stands(w.views) && Apart()
      ensures var order := Ordered(chain.entries);
              && |order| == |legs|
              && var op := Fallback(primary, backends, chain.breaker.cfg, before, order, legs, result, now);
                 && w == WalkUpTo(op.cfg, before, order, HeardLegs(backends, order, legs), |order|)
                 && Happens(op) && View() == Next(old(View()), op)
      ensures r == match result.output
                   case Some(out) => Ok(out.text)
                   case None => Err(result.error.value.message)
    {
      hide ProviderChain.Stands, WalkUpTo, TurnAnswer, Reports, Reached;
      var initialized := sessionDal.IsInitialized(primary);
      var base := TurnInput(prompt, !initialized, None, None);
      var order := chain.OrderedForDispatch();
      var answer;
      answer, w := chain.Turn(HeardLegs(backends, order, legs), before);
      result := answer;
      TurnReports(chain.breaker.cfg, before, order, HeardLegs(backends, order, legs), result);
      AskAll(primary, base, backends, order, legs, answer.attempts, now);
      if answer.output.None? {
        return Err(answer.error.value.message), result, w;
      }
      Remember(Key(primary.at, answer.selected), answer.output.value, now);
      return Ok(answer.output.value.text), result, w;
    }

    method DropForProvider(user: string, provider: string) returns (dropped: nat)
      modifies `log, sessionDal.repo
      ensures View() == Forgotten(old(View()), user, provider)
      ensures dropped == |old(sessionDal.repo.rows)| - |sessionDal.repo.rows|
    {
      dropped := sessionDal.repo.DropForProvider(user, provider);
      log := Then(log, Dropped(user, provider));
    }
  }
}
