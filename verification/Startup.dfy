/**
 * Start-up of the server: four informers report that they are synced, the pod informer is started by closing a channel,
 * and sync passes begin when all have reported.
 */
module Startup {

  datatype ServerState = ServerState(
    podSynced: bool, policySynced: bool, netdefSynced: bool, nsSynced: bool,
    initialized: bool, startPodConfigClosed: bool,
    closes: nat,             // how often the start channel was closed
    podConfigRunning: bool,  // the pod informer was started
    cancelled: bool,         // the server's context is done
    loopStarted: bool,       // the sync runner is looping
    requested: bool,         // a sync pass was requested
    passes: nat)             // sync passes so far

  datatype Callback =
    | PolicySynced | NetDefSynced | NamespaceSynced | PodSynced
    | ClusterEvent | PodEvent
    | StartPodConfig | Cancel | StartLoop | SyncPass

  const INITIAL := ServerState(false, false, false, false, false, false, 0, false, false, false, false, 0)

  predicate AllExceptPodsSynced(s: ServerState) {
    s.policySynced && s.netdefSynced && s.nsSynced
  }

  predicate AllSynced(s: ServerState) {
    s.policySynced && s.netdefSynced && s.nsSynced && s.podSynced
  }

  /** Callbacks of the pod informer come only after it was started, and that only after the channel was closed. */
  predicate Enabled(s: ServerState, c: Callback) {
    match c
    case PodSynced => s.podConfigRunning
    case PodEvent => s.podConfigRunning
    case StartPodConfig => s.closes > 0
    case StartLoop => s.initialized || s.cancelled
    case SyncPass => s.loopStarted
    case _ => true
  }

  function CloseIfReady(s: ServerState): ServerState {
    if AllExceptPodsSynced(s) && !s.startPodConfigClosed then s.(startPodConfigClosed := true, closes := s.closes + 1)
    else s
  }

  function SetInitialized(s: ServerState): ServerState {
    s.(initialized := AllSynced(s))
  }

  function Next(s: ServerState, c: Callback): ServerState {
    match c
    case PolicySynced => CloseIfReady(SetInitialized(s.(policySynced := true)))
    case NetDefSynced => CloseIfReady(SetInitialized(s.(netdefSynced := true)))
    case NamespaceSynced => CloseIfReady(SetInitialized(s.(nsSynced := true)))
    case PodSynced => SetInitialized(s.(podSynced := true))
    case ClusterEvent => if s.initialized then s.(requested := true) else s
    case PodEvent => if s.podSynced then s.(requested := true) else s
    case StartPodConfig => s.(podConfigRunning := true)
    case Cancel => s.(cancelled := true)
    case StartLoop => s.(loopStarted := true, requested := true)
    case SyncPass => s.(passes := s.passes + 1, requested := false)
  }

  /** A run from the initial state in which every callback is enabled when it comes. */
  predicate IsRun(s: ServerState, run: seq<Callback>)
    decreases |run|
  {
    run == [] || (Enabled(s, run[0]) && IsRun(Next(s, run[0]), run[1..]))
  }

  function After(s: ServerState, run: seq<Callback>): ServerState
    decreases |run|
  {
    if run == [] then s else After(Next(s, run[0]), run[1..])
  }

  /** What holds in every reachable state. */
  predicate Safe(s: ServerState) {
    && s.initialized == AllSynced(s)
    && s.startPodConfigClosed == AllExceptPodsSynced(s)
    && s.closes == (if s.startPodConfigClosed then 1 else 0)
    && (s.podConfigRunning ==> s.closes == 1)
    && (s.podSynced ==> s.podConfigRunning && AllSynced(s))
    && (s.requested ==> s.initialized || s.loopStarted)
    && (s.loopStarted ==> s.initialized || s.cancelled)
    && (s.passes > 0 ==> s.loopStarted)
  }

  lemma StepIsSafe(s: ServerState, c: Callback)
    requires Safe(s) && Enabled(s, c)
    ensures Safe(Next(s, c))
  {
  }

  lemma {:induction false} RunsAreSafe(s: ServerState, run: seq<Callback>)
    requires Safe(s) && IsRun(s, run)
    ensures Safe(After(s, run))
    decreases |run|
  {
    if run != [] {
      StepIsSafe(s, run[0]);
      RunsAreSafe(Next(s, run[0]), run[1..]);
    }
  }

  /**
   * In every interleaving of callbacks, repeats included: the start channel is closed at most once and only with
   * policies, definitions and namespaces synced; the pod informer's report implies all four; the server counts as
   * initialized exactly when all are synced; and no sync pass runs before that, unless the server is being shut down.
   */
  lemma StartupSafety(run: seq<Callback>)
    requires IsRun(INITIAL, run)
    ensures var s := After(INITIAL, run);
            && s.closes <= 1
            && (s.closes == 1 ==> AllExceptPodsSynced(s))
            && (s.podSynced ==> AllSynced(s))
            && (s.initialized <==> AllSynced(s))
            && (s.passes > 0 ==> AllSynced(s) || s.cancelled)
  {
    RunsAreSafe(INITIAL, run);
  }

  /** The loop waits for initialization or the end of the context, and does not look at which of the two it was. */
  lemma CancelledServerMayRunAPass()
    ensures var run := [Cancel, StartLoop, SyncPass];
            IsRun(INITIAL, run) && After(INITIAL, run).passes == 1 && !AllSynced(After(INITIAL, run))
  {
  }

  /** What a report other than the pod informer's does to the flags. */
  lemma ReportEffect(s: ServerState, c: Callback)
    requires Safe(s) && c in {PolicySynced, NetDefSynced, NamespaceSynced}
    ensures var n := Next(s, c);
            && Safe(n)
            && n.podSynced == s.podSynced
            && n.policySynced == (s.policySynced || c == PolicySynced)
            && n.netdefSynced == (s.netdefSynced || c == NetDefSynced)
            && n.nsSynced == (s.nsSynced || c == NamespaceSynced)
            && n.initialized == AllSynced(n)
            && n.startPodConfigClosed == AllExceptPodsSynced(n)
            && (n.closes > 0) == n.startPodConfigClosed
  {
  }

  /** The synchronization flags as the server keeps them. Closing a closed channel panics, so it is never done twice. */
  class Server {
    var podSynced: bool
    var policySynced: bool
    var netdefSynced: bool
    var nsSynced: bool
    var initialized: bool
    var startPodConfigClosed: bool
    var channelClosed: bool
    ghost var state: ServerState  // where the callbacks so far have led

    ghost predicate Valid()
      reads this
    {
      Safe(state) && Represents(state)
    }

    ghost predicate Represents(s: ServerState)
      reads this
    {
      podSynced == s.podSynced && policySynced == s.policySynced && netdefSynced == s.netdefSynced &&
      nsSynced == s.nsSynced && initialized == s.initialized && startPodConfigClosed == s.startPodConfigClosed &&
      channelClosed == (s.closes > 0)
    }

    constructor ()
      ensures Valid() && state == INITIAL
    {
      podSynced, policySynced, netdefSynced, nsSynced := false, false, false, false;
      initialized, startPodConfigClosed, channelClosed := false, false, false;
      state := INITIAL;
    }

    method Close()
      requires !channelClosed
      modifies this`channelClosed
      ensures channelClosed
    {
      channelClosed := true;
    }

    method CloseStartIfReady()
      requires channelClosed == startPodConfigClosed
      modifies this`channelClosed, this`startPodConfigClosed
      ensures channelClosed == startPodConfigClosed
      ensures startPodConfigClosed <==> old(startPodConfigClosed) || (policySynced && netdefSynced && nsSynced)
    {
      if policySynced && netdefSynced && nsSynced {
        if !startPodConfigClosed {
          Close();
          startPodConfigClosed := true;
        }
      }
    }

    method OnPolicySynced()
      requires Valid()
      modifies this
      ensures Valid() && state == Next(old(state), PolicySynced)
    {
      ReportEffect(state, PolicySynced);
      ghost var next := Next(state, PolicySynced);
      policySynced := true;
      initialized := policySynced && netdefSynced && nsSynced && podSynced;
      CloseStartIfReady();
      state := next;
    }

    method OnNetDefSynced()
      requires Valid()
      modifies this
      ensures Valid() && state == Next(old(state), NetDefSynced)
    {
      ReportEffect(state, NetDefSynced);
      ghost var next := Next(state, NetDefSynced);
      netdefSynced := true;
      initialized := policySynced && netdefSynced && nsSynced && podSynced;
      CloseStartIfReady();
      state := next;
    }

    method OnNamespaceSynced()
      requires Valid()
      modifies this
      ensures Valid() && state == Next(old(state), NamespaceSynced)
    {
      ReportEffect(state, NamespaceSynced);
      ghost var next := Next(state, NamespaceSynced);
      nsSynced := true;
      initialized := policySynced && netdefSynced && nsSynced && podSynced;
      CloseStartIfReady();
      state := next;
    }

    /** Called by the pod informer, which has been started. */
    method OnPodSynced()
      requires Valid() && state.podConfigRunning
      modifies this
      ensures Valid() && state == Next(old(state), PodSynced)
      ensures initialized
    {
      StepIsSafe(state, PodSynced);
      podSynced := true;
      initialized := policySynced && netdefSynced && nsSynced && podSynced;
      state := Next(state, PodSynced);
    }
  }
}
