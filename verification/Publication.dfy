/**
 * API-007 publication: conditional storage under an epoch and a head, with lost replies, witness cuts,
 * re-preparation, a receipt cache that may lose or invent an original, projection replay,
 * process loss and loss of authority. Sizes and retry counts are unbounded.
 */
module Publication {
  import opened Options

  // ---------------------------------------------------------------------- state

  datatype Disposition = Unsubmitted | Pending | Stored | Conflicted | Aborted

  datatype Answer = Unobserved | SawStored | SawConflict | SawNothing

  /** One conditional submission: what it stores, and the epoch and head it is conditional on. */
  datatype Attempt = Attempt(actor: nat, identity: nat, body: nat, epoch: nat, head: nat,
                             disposition: Disposition, reply: Answer)

  datatype Phase = Idle | Prepared | Waiting | Resolving | Witnessing | Acked | Denied | Unresolved | BackgroundDone

  datatype Outcome = NoOutcome | Success | Replayed | Conflict | Expired | Unknown | NativeStored | NativeConflict

  datatype Replay = NoReplay | EqualBody | ChangedBody | AfterExpiry

  /** A caller; `attempt` is its latest submission, none before the first. */
  datatype Caller = Caller(phase: Phase, body: nat, original: Option<nat>, attempt: Option<nat>,
                           witnessEpoch: nat, witnessHead: nat, witnessPresent: bool,
                           resolutions: nat, outcome: Outcome, replay: Replay)

  /** A durable frame: identity, body and the attempt that stored it. */
  datatype Frame = Frame(identity: nat, body: nat, attempt: nat)

  /** Durable storage: the fencing epoch, the stored frames and every submission made. */
  datatype Storage = Storage(epoch: nat, history: seq<Frame>, attempts: seq<Attempt>)

  /** The native projection of an applied prefix, with its receipt cache. */
  datatype View = View(applied: nat, work: seq<(nat, nat)>, workflow: seq<(nat, nat)>, newWork: seq<(nat, nat)>,
                       receipts: seq<(nat, nat)>, staged: bool)

  datatype Provider = Provider(catalog: bool, index: bool, genesisValid: bool, remembered: bool, cacheGenesis: bool,
                               up: bool)

  datatype State = State(storage: Storage, callers: seq<Caller>, view: View, provider: Provider,
                         expired: set<nat>, acknowledged: seq<(nat, nat)>, served: bool)

  /** Which parts of the environment are active, and how many background publishers there are. */
  datatype Config = Config(background: nat, bodies: set<nat>, resolutions: nat,
                           fences: bool, replays: bool, cacheFaults: bool, projectionReset: bool, authorityFaults: bool)

  const ORIGINAL_RESOLUTION := Config(0, {0, 1}, 3, true, true, true, false, false)
  const BACKGROUND_PUBLICATION := Config(1, {0}, 3, false, false, false, true, false)
  const AUTHORITY_REOPEN := Config(0, {0}, 3, false, false, false, false, true)

  /** New requests: the mutation caller is actor 0, every background publisher prepares once. */
  datatype StartAction =
    | UnknownInitialCacheMismatch(body: nat) | StartOriginalReplay(body: nat) | Prepare(body: nat)
    | PrepareGrantedEpoch(publisher: nat)

  /** A caller dispatches its submission, and hears from the store or gives up waiting. */
  datatype ReplyAction =
    | Dispatch | BackgroundStoredReply | BackgroundConflictReply
    | ReceiveStored | LoseStoredReply | ReceiveConflict | TimeoutBeforeStorage

  datatype ResolveAction =
    | UnknownAuthority | ResolutionUnknown | AcquireWitness | DiscardStaleCut | CacheHistoryUnknown
    | Resolve | Reprepare | ContentionUnknown

  datatype ReplayAction = StartReplay(kind: Replay, body: nat) | RetentionCleanup

  datatype ProjectionAction =
    | BeginApply | CommitApply | ServeFresh | ResetProjection | LoseCachedOriginal | PhantomCachedOriginal

  datatype AuthorityAction = CrashDuringApply | LoseIndex | LoseCatalog | CorruptGenesis | RestoreAuthenticAuthority

  datatype Action =
    | Observe | Reopen | BackgroundFence
    | Start(start: StartAction)
    | Reply(actor: nat, reply: ReplyAction)
    | Resolution(actor: nat, resolution: ResolveAction)
    | Again(actor: nat, again: ReplayAction)
    | CASStore(number: nat) | CASReject(number: nat)
    | Projection(projection: ProjectionAction)
    | Authority(authority: AuthorityAction)

  const NEW_CALLER := Caller(Idle, 0, None, None, 0, 0, false, 0, NoOutcome, NoReplay)

  function Initial(c: Config): State {
    State(Storage(1, [], []), seq(c.background + 1, _ => NEW_CALLER), View(0, [], [], [], [], false),
          Provider(true, true, true, true, true, true), {}, [], false)
  }

  // ------------------------------------------------------------------- readings

  predicate IsIndexed(s: State) {
    s.provider.up && s.provider.index && s.provider.genesisValid
  }

  /** The receipts a history stands for. */
  function Expected(history: seq<Frame>): (r: seq<(nat, nat)>)
    ensures |r| == |history|
    ensures forall i :: 0 <= i < |history| ==> r[i] == (history[i].identity, history[i].body)
  {
    seq(|history|, i requires 0 <= i < |history| => (history[i].identity, history[i].body))
  }

  /** The effects of a history: body 0 acts, every other body is a durable rejection. */
  function Effects(history: seq<Frame>): (r: seq<(nat, nat)>) {
    if history == [] then []
    else
      var last := history[|history| - 1];
      Effects(history[..|history| - 1]) + (if last.body == 0 then [(last.identity, last.body)] else [])
  }

  function Lookup(receipts: seq<(nat, nat)>, identity: nat): (r: Option<nat>)
    ensures r.Some? ==> (identity, r.value) in receipts
    ensures r.None? ==> forall i :: 0 <= i < |receipts| ==> receipts[i].0 != identity
  {
    if receipts == [] then None
    else if receipts[0].0 == identity then Some(receipts[0].1)
    else Lookup(receipts[1..], identity)
  }

  /** What an available index says about an identity; nothing without authority. */
  function Known(s: State, identity: nat): (r: Option<nat>) {
    if IsIndexed(s) then Lookup(Expected(s.storage.history), identity) else None
  }

  // ---------------------------------------------------------------------- steps

  /** The epoch is raised: nothing submitted under an earlier one fits any more. */
  function Fenced(s: State): State {
    s.(storage := s.storage.(epoch := s.storage.epoch + 1), served := false)
  }

  function WithCaller(s: State, actor: nat, caller: Caller): State
    requires actor < |s.callers|
  {
    s.(callers := s.callers[actor := caller], served := false)
  }

  function WithAttempt(s: State, number: nat, attempt: Attempt): State
    requires number < |s.storage.attempts|
  {
    s.(storage := s.storage.(attempts := s.storage.attempts[number := attempt]), served := false)
  }

  /** The reply to a submission arrives, or is given up on. */
  function Observed(s: State, actor: nat, reply: Answer, phase: Phase, outcome: Outcome): State
    requires actor < |s.callers| && s.callers[actor].attempt.Some?
    requires s.callers[actor].attempt.value < |s.storage.attempts|
  {
    var c := s.callers[actor];
    var n := c.attempt.value;
    WithCaller(WithAttempt(s, n, s.storage.attempts[n].(reply := reply)), actor, c.(phase := phase, outcome := outcome))
  }

  /** A new submission of `actor`. */
  function Submit(s: State, actor: nat, body: nat, epoch: nat, caller: Caller): State
    requires actor < |s.callers|
  {
    WithCaller(s.(storage := s.storage.(
                 attempts := s.storage.attempts
                     + [Attempt(actor, actor, body, epoch, |s.storage.history|, Unsubmitted, Unobserved)])),
               actor, caller.(attempt := Some(|s.storage.attempts|)))
  }

  predicate CanStart(c: Config, s: State, body: nat) {
    |s.callers| > 0 && s.callers[0].phase == Idle && IsIndexed(s) && s.view.applied == |s.storage.history|
        && body in c.bodies
  }

  function StartStep(c: Config, s: State, a: StartAction): Option<State> {
    match a
    case UnknownInitialCacheMismatch(body) =>
      if CanStart(c, s, body) && Lookup(s.view.receipts, 0).Some? != Known(s, 0).Some?
      then Some(WithCaller(s, 0, s.callers[0].(phase := Unresolved, body := body, outcome := Unknown))) else None
    case StartOriginalReplay(body) =>
      if CanStart(c, s, body) && Lookup(s.view.receipts, 0).Some? && Known(s, 0).Some?
      then Some(WithCaller(s, 0, s.callers[0].(phase := Resolving, body := body))) else None
    case Prepare(body) =>
      if CanStart(c, s, body) && Lookup(s.view.receipts, 0).None? && Known(s, 0).None?
      then Some(Submit(Fenced(s), 0, body, s.storage.epoch + 1,
                       s.callers[0].(phase := Prepared, body := body, original := Some(body)))) else None
    case PrepareGrantedEpoch(actor) =>
      if 1 <= actor < |s.callers| && s.callers[actor].phase == Idle && IsIndexed(s)
      then Some(Submit(s, actor, 0, s.storage.epoch, s.callers[actor].(phase := Prepared, body := 0))) else None
  }

  predicate Waits(s: State, actor: nat) {
    && actor < |s.callers| && s.callers[actor].phase == Waiting
    && s.callers[actor].attempt.Some? && s.callers[actor].attempt.value < |s.storage.attempts|
  }

  function Current(s: State, actor: nat): Attempt
    requires Waits(s, actor)
  {
    s.storage.attempts[s.callers[actor].attempt.value]
  }

  function ReplyStep(s: State, actor: nat, a: ReplyAction): Option<State> {
    match a
    case Dispatch =>
      if actor < |s.callers| && s.callers[actor].phase == Prepared && s.callers[actor].attempt.Some?
         && s.callers[actor].attempt.value < |s.storage.attempts|
      then var n := s.callers[actor].attempt.value;
           Some(WithCaller(WithAttempt(s, n, s.storage.attempts[n].(disposition := Pending)), actor,
                           s.callers[actor].(phase := Waiting)))
      else None
    case BackgroundStoredReply =>
      if actor >= 1 && Waits(s, actor) && Current(s, actor).disposition == Stored
      then Some(Observed(s, actor, SawStored, BackgroundDone, NativeStored)) else None
    case BackgroundConflictReply =>
      if actor >= 1 && Waits(s, actor) && Current(s, actor).disposition == Conflicted
      then Some(Observed(s, actor, SawConflict, BackgroundDone, NativeConflict)) else None
    case ReceiveStored =>
      if actor == 0 && Waits(s, actor) && Current(s, actor).disposition == Stored
      then Some(Observed(s, actor, SawStored, Resolving, s.callers[actor].outcome)) else None
    case LoseStoredReply =>
      if actor == 0 && Waits(s, actor) && Current(s, actor).disposition == Stored
      then Some(Observed(s, actor, SawNothing, Resolving, s.callers[actor].outcome)) else None
    case ReceiveConflict =>
      if actor == 0 && Waits(s, actor) && Current(s, actor).disposition == Conflicted
      then Some(Observed(s, actor, SawConflict, Resolving, s.callers[actor].outcome)) else None
    case TimeoutBeforeStorage =>
      if actor == 0 && Waits(s, actor) && !Current(s, actor).disposition.Stored?
          && !Current(s, actor).disposition.Conflicted?
      then Some(Observed(s, actor, SawNothing, Resolving, s.callers[actor].outcome)) else None
  }

  /** The caller holds a witness cut that has been applied and is still the head. */
  predicate CutCurrent(s: State, actor: nat) {
    && actor < |s.callers| && s.callers[actor].phase == Witnessing && IsIndexed(s)
    && s.view.applied >= s.callers[actor].witnessHead == |s.storage.history|
  }

  /** What a present original means for the caller's request. */
  function Judged(s: State, actor: nat, original: nat): Outcome
    requires actor < |s.callers|
  {
    var c := s.callers[actor];
    if original != c.body then Conflict
    else if actor in s.expired then Expired
    else if c.replay != NoReplay then Replayed
    else Success
  }

  function Settle(s: State, actor: nat, outcome: Outcome): State
    requires actor < |s.callers|
  {
    var c := s.callers[actor];
    if (outcome.Success? || outcome.Replayed?)
    then
      var t := WithCaller(s, actor, c.(phase := Acked, outcome := outcome));
      t.(acknowledged := s.acknowledged + [(actor, c.body)])
    else WithCaller(s, actor, c.(phase := Denied, outcome := outcome))
  }

  function GiveUp(s: State, actor: nat): State
    requires actor < |s.callers|
  {
    WithCaller(s, actor, s.callers[actor].(phase := Unresolved, outcome := Unknown))
  }

  /** Neither history nor cache knows the identity at the current cut. */
  predicate AbsentAtCut(s: State, actor: nat) {
    CutCurrent(s, actor) && !s.callers[actor].witnessPresent && Lookup(s.view.receipts, actor).None?
  }

  function ResolveStep(c: Config, s: State, actor: nat, a: ResolveAction): Option<State> {
    match a
    case UnknownAuthority =>
      if actor < |s.callers| && s.callers[actor].phase == Resolving && !IsIndexed(s)
      then Some(GiveUp(s, actor)) else None
    case ResolutionUnknown =>
      if actor < |s.callers| && s.callers[actor].phase == Resolving && IsIndexed(s)
          && s.callers[actor].resolutions >= c.resolutions
      then Some(GiveUp(s, actor)) else None
    case AcquireWitness =>
      if actor < |s.callers| && s.callers[actor].phase == Resolving && IsIndexed(s)
          && s.callers[actor].resolutions < c.resolutions
      then Some(WithCaller(Fenced(s), actor, s.callers[actor].(
                  phase := Witnessing, witnessEpoch := s.storage.epoch + 1, witnessHead := |s.storage.history|,
                  witnessPresent := Known(s, actor).Some?, resolutions := s.callers[actor].resolutions + 1))) else None
    case DiscardStaleCut =>
      if actor < |s.callers| && s.callers[actor].phase == Witnessing && IsIndexed(s)
         && s.view.applied >= s.callers[actor].witnessHead && |s.storage.history| != s.callers[actor].witnessHead
      then Some(WithCaller(s, actor, s.callers[actor].(phase := Resolving))) else None
    case CacheHistoryUnknown =>
      if CutCurrent(s, actor) && Lookup(s.view.receipts, actor).Some? != s.callers[actor].witnessPresent
      then Some(GiveUp(s, actor)) else None
    case Resolve =>
      if CutCurrent(s, actor) && s.callers[actor].witnessPresent && Lookup(s.view.receipts, actor).Some?
      then Some(Settle(s, actor, Judged(s, actor, Lookup(s.view.receipts, actor).value))) else None
    case Reprepare =>
      if AbsentAtCut(s, actor) && s.callers[actor].attempt.Some?
          && s.callers[actor].attempt.value < |s.storage.attempts|
         && s.callers[actor].witnessEpoch > s.storage.attempts[s.callers[actor].attempt.value].epoch
      then Some(Submit(s, actor, s.callers[actor].body, s.callers[actor].witnessEpoch,
                       s.callers[actor].(phase := Prepared)))
      else None
    case ContentionUnknown =>
      if AbsentAtCut(s, actor) then Some(GiveUp(s, actor)) else None
  }

  function ReplayStep(c: Config, s: State, actor: nat, a: ReplayAction): Option<State> {
    match a
    case StartReplay(kind, body) =>
      if && c.replays && actor < |s.callers| && (s.callers[actor].phase.Acked? || s.callers[actor].phase.Denied?)
          && s.callers[actor].original.Some?
         && kind != NoReplay && (kind == AfterExpiry ==> actor in s.expired)
         && (kind == ChangedBody <==> body != s.callers[actor].original.value)
      then Some(WithCaller(s, actor, s.callers[actor].(
                  phase := Resolving, body := body, outcome := NoOutcome, replay := kind, resolutions := 0,
                  witnessEpoch := 0, witnessHead := 0, witnessPresent := false))) else None
    case RetentionCleanup =>
      if c.replays && actor < |s.callers| && (s.callers[actor].phase.Acked? || s.callers[actor].phase.Denied?)
          && actor !in s.expired
      then Some(s.(expired := s.expired + {actor}, served := false)) else None
  }

  /** The store takes a submission whose epoch and head both still hold. */
  predicate Fits(s: State, number: nat)
    requires number < |s.storage.attempts|
  {
    s.storage.attempts[number].epoch == s.storage.epoch && s.storage.attempts[number].head == |s.storage.history|
  }

  function StoreStep(s: State, number: nat): Option<State> {
    if number < |s.storage.attempts| && s.storage.attempts[number].disposition == Pending && IsIndexed(s)
        && Fits(s, number)
    then
      var stored := WithAttempt(s, number, s.storage.attempts[number].(disposition := Stored));
      Some(stored.(storage := stored.storage.(
             history := s.storage.history
                 + [Frame(s.storage.attempts[number].identity, s.storage.attempts[number].body, number)])))
    else None
  }

  function RejectStep(s: State, number: nat): Option<State> {
    if number < |s.storage.attempts| && s.storage.attempts[number].disposition == Pending && IsIndexed(s)
        && !Fits(s, number)
    then Some(WithAttempt(s, number, s.storage.attempts[number].(disposition := Conflicted)))
    else None
  }

  function ProjectionStep(c: Config, s: State, a: ProjectionAction): Option<State> {
    match a
    case BeginApply =>
      if IsIndexed(s) && s.view.applied < |s.storage.history| && !s.view.staged
      then Some(s.(view := s.view.(staged := true), served := false)) else None
    case CommitApply =>
      if IsIndexed(s) && s.view.applied < |s.storage.history| && s.view.staged
      then var prefix := s.storage.history[..s.view.applied + 1];
           Some(s.(view := View(s.view.applied + 1, Effects(prefix), Effects(prefix), Effects(prefix),
                                Expected(prefix), false),
                   served := false)) else None
    case ServeFresh =>
      if IsIndexed(s) && s.view.applied == |s.storage.history| && s.view.receipts == Expected(s.storage.history)
      then Some(s.(served := true)) else None
    case ResetProjection =>
      if c.projectionReset && s.provider.up && s.view.work != []
      then Some(s.(view := View(0, [], [], [], [], false), served := false)) else None
    case LoseCachedOriginal =>
      if c.cacheFaults && s.provider.up && s.view.receipts != []
      then Some(s.(view := s.view.(receipts := []), served := false)) else None
    case PhantomCachedOriginal =>
      if c.cacheFaults && s.provider.up && s.view.receipts == [] && s.storage.history == []
      then Some(s.(view := s.view.(receipts := [(0, 0)]), served := false)) else None
  }

  predicate Unfinished(phase: Phase) {
    phase.Prepared? || phase.Waiting? || phase.Resolving? || phase.Witnessing?
  }

  /** A process loss sends every unfinished caller back to resolution. */
  function Interrupted(callers: seq<Caller>): (r: seq<Caller>)
    ensures |r| == |callers|
  {
    seq(|callers|, i requires 0 <= i < |callers| =>
      if Unfinished(callers[i].phase)
      then callers[i].(phase := Resolving, witnessEpoch := 0, witnessHead := 0, witnessPresent := false)
      else callers[i])
  }

  /** Submissions the store has not decided are lost with the process. */
  function Abandoned(attempts: seq<Attempt>): (r: seq<Attempt>)
    ensures |r| == |attempts|
  {
    seq(|attempts|, i requires 0 <= i < |attempts| =>
      if attempts[i].disposition.Pending? || attempts[i].disposition.Unsubmitted?
      then attempts[i].(disposition := Aborted, reply := SawNothing) else attempts[i])
  }

  function AuthorityStep(c: Config, s: State, a: AuthorityAction): Option<State> {
    match a
    case CrashDuringApply =>
      if c.authorityFaults && s.view.staged && (s.provider.catalog || s.provider.cacheGenesis)
      then Some(s.(provider := s.provider.(up := false), callers := Interrupted(s.callers),
                   storage := s.storage.(attempts := Abandoned(s.storage.attempts)),
                   view := s.view.(staged := false), served := false))
      else None
    case LoseIndex =>
      if c.authorityFaults && s.provider.index
      then Some(s.(provider := s.provider.(index := false), served := false)) else None
    case LoseCatalog =>
      if c.authorityFaults && s.provider.catalog
      then Some(s.(provider := s.provider.(catalog := false), served := false)) else None
    case CorruptGenesis =>
      if c.authorityFaults && s.provider.genesisValid
      then Some(s.(provider := s.provider.(genesisValid := false), served := false)) else None
    case RestoreAuthenticAuthority =>
      if c.authorityFaults && (!s.provider.index || !s.provider.genesisValid)
      then Some(s.(provider := s.provider.(index := true, genesisValid := true), served := false)) else None
  }

  /** The state an action leads to, if it is enabled. A process that is down can only reopen. */
  function Step(c: Config, s: State, a: Action): Option<State> {
    if a == Observe then Some(s)
    else if !s.provider.up then
      if a == Reopen
      then
        var remembered := s.provider.catalog || s.provider.cacheGenesis;
        Some(s.(provider := s.provider.(up := true, remembered := remembered), view := s.view.(staged := false)))
      else None
    else match a
      case BackgroundFence => if c.fences then Some(Fenced(s)) else None
      case Start(x) => StartStep(c, s, x)
      case Reply(actor, x) => ReplyStep(s, actor, x)
      case Resolution(actor, x) => ResolveStep(c, s, actor, x)
      case Again(actor, x) => ReplayStep(c, s, actor, x)
      case CASStore(number) => StoreStep(s, number)
      case CASReject(number) => RejectStep(s, number)
      case Projection(x) => ProjectionStep(c, s, x)
      case Authority(x) => AuthorityStep(c, s, x)
      case _ => None
  }
}
