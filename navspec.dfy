/**
 * The pano navigation state of src/main.js as a value, and the operations that
 * can run while a transition is suspended at an `await`, as functions on it.
 *
 * The viewer class (module Viewer) keeps the same state in fields; each of its
 * methods for these operations is proved to change its fields exactly as the
 * function here changes the value, so that a suspended `goTo` can state what
 * the rest of the state looks like when it resumes.
 */
module NavSpec {

  import opened Base
  import Naming

  datatype Mode = Pano | Dollhouse

  /** A decoded panorama; a load of URL `u` that succeeds yields `Texture(u)`. */
  datatype Texture = Texture(url: string)

  /** What the pano sphere displays: nothing (black), a panorama, or the clip. */
  datatype Shown = Blank | Showing(tex: Texture) | Clip

  /** One outbound `RTF_NODE_CHANGE` message (panoIndex, nodeId, mode). */
  datatype NodeChange = NodeChange(panoIndex: int, nodeId: int, mode: Mode)

  /** A scheduled reveal of one mode's controls, stamped with the UI epoch. */
  datatype Reveal = Reveal(epoch: nat, forMode: Mode)

  /** How a network load would end if issued now. */
  datatype LoadOutcome = LoadOk | LoadFails

  /** What `ensurePanoLoaded` settles with: `null`, a texture, or a rejection. */
  datatype Loaded = NullTex | Tex(t: Texture) | LoadError

  /**
   * An operation that may run while a pano transition is suspended at an
   * `await`: a cancel (the 15 s watchdog, or any caller of
   * `cancelActivePanoTransition`), the dollhouse tab taking over, a hard
   * jump to a node (a dollhouse marker or an `RTF_GOTO_NODE` message), or an
   * `RTF_SET_MODE` "pano" message. Each carries the outcome of the loads it
   * issues.
   */
  datatype Interrupt =
    | NoInterrupt
    | Cancel(restore: LoadOutcome)
    | EnterDollhouse(restore: LoadOutcome)
    | Jump(target: int, restore: LoadOutcome, load: LoadOutcome)
    | EnterPano(restore: LoadOutcome, load: LoadOutcome)

  /** The module state that navigation reads and writes. */
  datatype Nav = Nav(
    panos: seq<string>,            // PANOS
    index: int,                    // state.index
    transitioning: bool,           // state.isTransitioning
    token: nat,                    // transitionCancelToken
    mode: Mode,                    // mode
    uiEpoch: nat,                  // __uiEpoch
    uiEnabled: bool,               // back/forward buttons enabled
    shown: Shown,                  // the pano sphere's map
    cache: seq<Option<Texture>>,   // state.panoTextures
    loads: seq<string>,            // every pano load issued, in order
    emitted: seq<NodeChange>,      // every RTF_NODE_CHANGE posted, in order
    indicator: string,             // the "NN / MM" indicator text
    pending: seq<Reveal>,          // reveals waiting for their timer
    navVisible: bool,              // pano controls shown
    dollVisible: bool,             // dollhouse controls shown
    clipUrl: string                // the transition clip last loaded
  )

  /** Every cached slot holds the texture of that slot's own URL. */
  ghost predicate CacheCoherent(panos: seq<string>, cache: seq<Option<Texture>>)
  {
    |cache| == |panos| &&
    forall i :: 0 <= i < |cache| && cache[i].Some? ==> cache[i].value == Texture(panos[i])
  }

  /** No reveal is stamped with an epoch that has not begun. */
  ghost predicate RevealsStamped(pending: seq<Reveal>, uiEpoch: nat)
  {
    forall r :: r in pending ==> r.epoch <= uiEpoch
  }

  ghost predicate WellFormed(s: Nav)
  {
    CacheCoherent(s.panos, s.cache) && RevealsStamped(s.pending, s.uiEpoch)
  }

  /** `setSphereMap(x)`: a texture shows; `null` shows black. */
  function ShownOf(r: Loaded): Shown
  {
    if r.Tex? then Showing(r.t) else Blank
  }

  /** `state.panoTextures[i] = tex` for the texture of slot `i`. */
  function Store(s: Nav, i: int): (r: Nav)
    requires |s.cache| == |s.panos|
    ensures |r.cache| == |r.panos|
  {
    if 0 <= i < |s.cache| then s.(cache := s.cache[i := Some(Texture(s.panos[i]))]) else s
  }

  /** `ensurePanoLoaded(i)` run to completion, with `outcome` for a miss. */
  function EnsureLoaded(s: Nav, i: int, outcome: LoadOutcome): (res: (Nav, Loaded))
    requires |s.cache| == |s.panos|
    ensures res.0.panos == s.panos && |res.0.cache| == |s.cache|
  {
    if i < 0 || i >= |s.panos| then (s, NullTex)
    else if s.cache[i].Some? then (s, Tex(s.cache[i].value))
    else
      var s1 := s.(loads := s.loads + [s.panos[i]]);
      if outcome == LoadOk then (Store(s1, i), Tex(Texture(s.panos[i])))
      else (s1, LoadError)
  }

  /**
   * The memo table: out of range gives `null` and changes nothing; a hit
   * returns the stored texture and issues no load; a miss issues exactly one
   * load, of that slot's URL, and on success fills that slot and no other.
   * Whatever is returned is the texture of slot `i`'s own URL.
   */
  lemma EnsureLoadedMemo(s: Nav, i: int, outcome: LoadOutcome)
    requires WellFormed(s)
    ensures var (s', r) := EnsureLoaded(s, i, outcome);
      && WellFormed(s')
      && ((i < 0 || i >= |s.panos|) ==> s' == s && r == NullTex)
      && (0 <= i < |s.panos| && s.cache[i].Some? ==> s' == s && r == Tex(Texture(s.panos[i])))
      && (0 <= i < |s.panos| && s.cache[i].None? ==>
            && s'.loads == s.loads + [s.panos[i]]
            && (outcome == LoadOk ==> r == Tex(Texture(s.panos[i])) && s'.cache[i] == Some(Texture(s.panos[i])))
            && (outcome == LoadFails ==> r == LoadError && s'.cache == s.cache)
            && forall k :: 0 <= k < |s.cache| && k != i ==> s'.cache[k] == s.cache[k])
      && s' == s.(loads := s'.loads, cache := s'.cache)
  {
  }

  /** `emitListingNodeChange(i)`: posts nothing for a negative index. */
  function EmitChange(s: Nav, i: int): Nav
  {
    s.(emitted := s.emitted + if i < 0 then [] else [NodeChange(i, Naming.NodeIdForIndex(i), s.mode)])
  }

  /** `updateIndicator(i)`: the indicator text, then the outbound message. */
  function UpdateIndicator(s: Nav, i: int): Nav
  {
    EmitChange(s.(indicator := Naming.IndicatorText(i, |s.panos|)), i)
  }

  /** The synchronous head of `cancelActivePanoTransition`. */
  function CancelHead(s: Nav): Nav
  {
    s.(token := s.token + 1, transitioning := false)
  }

  /**
   * `cancelActivePanoTransition` run to completion: invalidate the token, clear
   * the flag and, in pano mode, redisplay the current node and enable input
   * (black if that load fails).
   */
  function CancelF(s: Nav, restore: LoadOutcome): (r: Nav)
    requires WellFormed(s)
    ensures WellFormed(r) && r.panos == s.panos
    ensures forall k :: 0 <= k < |s.cache| && (k != s.index || s.cache[k].Some?) ==> r.cache[k] == s.cache[k]
    ensures r.token == s.token + 1 && !r.transitioning
    ensures r.index == s.index && r.mode == s.mode && r.uiEpoch == s.uiEpoch && r.pending == s.pending
    ensures s.mode == Pano ==> r.uiEnabled
    ensures s.mode == Pano ==>
      r.shown == (if 0 <= s.index < |s.panos| && (s.cache[s.index].Some? || restore == LoadOk)
                  then Showing(Texture(s.panos[s.index])) else Blank)
  {
    var s1 := CancelHead(s);
    if s.mode != Pano then s1 else RestoreF(s1, restore)
  }

  /** The pano-mode tail of the cancel: redisplay the current node (black if its load fails), enable input. */
  function RestoreF(s: Nav, restore: LoadOutcome): (r: Nav)
    requires WellFormed(s)
    ensures WellFormed(r) && r.panos == s.panos && r.uiEnabled
    ensures r == s.(cache := r.cache, loads := r.loads, shown := r.shown, uiEnabled := r.uiEnabled)
    ensures forall k :: 0 <= k < |s.cache| && (k != s.index || s.cache[k].Some?) ==> r.cache[k] == s.cache[k]
    ensures r.shown ==
      (if 0 <= s.index < |s.panos| && (s.cache[s.index].Some? || restore == LoadOk)
       then Showing(Texture(s.panos[s.index])) else Blank)
  {
    EnsureLoadedMemo(s, s.index, restore);
    var (s2, res) := EnsureLoaded(s, s.index, restore);
    s2.(shown := ShownOf(res), uiEnabled := true)
  }

  /**
   * The cancel that `setMode` starts when it leaves pano, and does not await:
   * its restore load settles only after the mode has switched. A texture (or
   * `null`) is still put on the sphere and input enabled; a rejection finds
   * the mode no longer pano and does nothing, so input stays disabled.
   */
  function CancelLeavingF(s: Nav, restore: LoadOutcome): (r: Nav)
    requires WellFormed(s)
    ensures WellFormed(r) && r.panos == s.panos
    ensures forall k :: 0 <= k < |s.cache| && (k != s.index || s.cache[k].Some?) ==> r.cache[k] == s.cache[k]
    ensures r.token == s.token + 1 && !r.transitioning
    ensures r.index == s.index && r.mode == s.mode && r.uiEpoch == s.uiEpoch && r.pending == s.pending
    ensures r.uiEnabled <==> s.uiEnabled || !(0 <= s.index < |s.panos| && s.cache[s.index].None? && restore == LoadFails)
    ensures r.shown ==
      (if 0 <= s.index < |s.panos| && (s.cache[s.index].Some? || restore == LoadOk)
       then Showing(Texture(s.panos[s.index]))
       else if 0 <= s.index < |s.panos| then s.shown else Blank)
  {
    RestoreLeavingF(CancelHead(s), restore)
  }

  /** The restore of that cancel, settling outside pano: a rejection changes nothing but the loads. */
  function RestoreLeavingF(s: Nav, restore: LoadOutcome): (r: Nav)
    requires WellFormed(s)
    ensures WellFormed(r) && r == s.(cache := r.cache, loads := r.loads, shown := r.shown, uiEnabled := r.uiEnabled)
    ensures forall k :: 0 <= k < |s.cache| && (k != s.index || s.cache[k].Some?) ==> r.cache[k] == s.cache[k]
    ensures r.uiEnabled <==> s.uiEnabled || !(0 <= s.index < |s.panos| && s.cache[s.index].None? && restore == LoadFails)
    ensures r.shown ==
      (if 0 <= s.index < |s.panos| && (s.cache[s.index].Some? || restore == LoadOk)
       then Showing(Texture(s.panos[s.index]))
       else if 0 <= s.index < |s.panos| then s.shown else Blank)
  {
    EnsureLoadedMemo(s, s.index, restore);
    var (s2, res) := EnsureLoaded(s, s.index, restore);
    if res.LoadError? then s2 else s2.(shown := ShownOf(res), uiEnabled := true)
  }

  /**
   * `setMode(m)`: leaving pano mid-transition cancels it; the UI epoch always
   * advances and both control groups are hidden; entering pano re-posts the
   * current node and makes pano input active.
   */
  function SetModeF(s: Nav, m: Mode, restore: LoadOutcome): (r: Nav)
    requires WellFormed(s)
    ensures WellFormed(r) && r.panos == s.panos && r.index == s.index
    ensures r.mode == m && r.uiEpoch > s.uiEpoch && r.pending == s.pending
    ensures forall v :: v in r.pending ==> v.epoch < r.uiEpoch
    ensures !r.navVisible && !r.dollVisible
    ensures m == Pano ==> !r.transitioning && r.uiEnabled && r.token == s.token && r.cache == s.cache
    ensures forall k :: 0 <= k < |s.cache| && (k != s.index || s.cache[k].Some?) ==> r.cache[k] == s.cache[k]
    ensures m != Pano ==> r.token == (if s.mode == Pano && s.transitioning then s.token + 1 else s.token)
    ensures m != Pano ==> r.transitioning == (s.transitioning && s.mode != Pano)
    ensures m == Pano && s.index >= 0 ==> r.emitted == s.emitted + [NodeChange(s.index, s.index + 1, Pano)]
  {
    var s1 := if s.mode == Pano && m != Pano && s.transitioning then CancelLeavingF(s, restore) else s;
    SwitchModeF(s1, m)
  }

  /** The body of `setMode` after its cancel: switch, advance the epoch, hide, re-post in pano. */
  function SwitchModeF(s: Nav, m: Mode): Nav
  {
    var s2 := s.(mode := m, uiEpoch := s.uiEpoch + 1, navVisible := false, dollVisible := false);
    if m == Pano then PanoUIActive(EmitChange(s2, s2.index)) else s2
  }

  /** `ensurePanoUIActive`: input enabled, no transition in flight. */
  function PanoUIActive(s: Nav): Nav
  {
    s.(uiEnabled := true, transitioning := false)
  }

  /** The dollhouse tab: blank the sphere, switch mode, schedule the reveal. */
  function EnterDollhouseF(s: Nav, restore: LoadOutcome): (r: Nav)
    requires WellFormed(s)
    ensures WellFormed(r) && r.panos == s.panos && r.mode == Dollhouse
    ensures r.token == (if s.mode == Pano && s.transitioning then s.token + 1 else s.token)
    ensures s.mode == Pano ==> !r.transitioning
    ensures s.mode == Dollhouse ==> r == s
    ensures r.uiEpoch >= s.uiEpoch && s.pending <= r.pending
  {
    if s.mode == Dollhouse then s
    else
      ScheduleReveal(SetModeF(s.(shown := Blank), Dollhouse, restore), Dollhouse)
  }

  /**
   * The common head of `jumpToPano`, the pano tab and `RTF_SET_MODE` "pano":
   * cancel a transition in flight, enter pano mode, blank the sphere.
   */
  function EnterPanoF(s: Nav, restore: LoadOutcome): (r: Nav)
    requires WellFormed(s)
    ensures WellFormed(r) && r.panos == s.panos && r.mode == Pano && !r.transitioning && r.index == s.index
    ensures r.shown == Blank && r.uiEnabled && r.uiEpoch > s.uiEpoch && r.pending == s.pending
    ensures forall k :: 0 <= k < |s.cache| && (k != s.index || s.cache[k].Some?) ==> r.cache[k] == s.cache[k]
    ensures r.token == (if s.transitioning then s.token + 1 else s.token)
  {
    var s1 := if s.transitioning then CancelF(s, restore) else s;
    SetModeF(s1, Pano, restore).(shown := Blank)
  }

  /**
   * `jumpToPano(j)`: cancel (awaited) any transition, enter pano, blank, load
   * node `j`; if that load rejects nothing more happens, else show it, commit
   * `j` (unchecked against the node count), update the indicator and schedule
   * the pano reveal.
   */
  function JumpF(s: Nav, j: int, restore: LoadOutcome, load: LoadOutcome): (r: Nav)
    requires WellFormed(s)
    ensures WellFormed(r) && r.panos == s.panos && r.mode == Pano && !r.transitioning
    ensures r.token == (if s.transitioning then s.token + 1 else s.token)
    ensures r.uiEpoch > s.uiEpoch && s.pending <= r.pending
  {
    var s2 := EnterPanoF(s, restore);
    EnsureLoadedMemo(s2, j, load);
    var (s3, res) := EnsureLoaded(s2, j, load);
    if res.LoadError? then s3 else ShowNode(s3, j, res)
  }

  /** Show what a load of `j` settled with, commit `j`, and schedule the pano reveal. */
  function ShowNode(s: Nav, j: int, res: Loaded): (r: Nav)
    requires WellFormed(s)
    ensures WellFormed(r) && r.panos == s.panos && r.mode == s.mode && r.transitioning == s.transitioning
    ensures r.token == s.token && r.index == j && r.shown == ShownOf(res)
    ensures j >= 0 ==> r.emitted == s.emitted + [NodeChange(j, j + 1, s.mode)]
  {
    ScheduleReveal(Display(s, j, res), Pano)
  }

  /** `setSphereMap(tex)`, `state.index = j`, `updateIndicator(j)`. */
  function Display(s: Nav, j: int, res: Loaded): Nav
  {
    UpdateIndicator(s.(shown := ShownOf(res), index := j), j)
  }

  /** `revealPanoUIWhenReady` / `revealDollUIWhenReady`: a reveal stamped with the current epoch. */
  function ScheduleReveal(s: Nav, m: Mode): (r: Nav)
    requires WellFormed(s)
    ensures WellFormed(r) && r == s.(pending := r.pending)
    ensures r.pending == s.pending + [Reveal(s.uiEpoch, m)]
  {
    s.(pending := s.pending + [Reveal(s.uiEpoch, m)])
  }

  /**
   * One operation running to completion while a transition is suspended.
   * No operation lowers the token or the UI epoch, drops a scheduled reveal
   * or starts a transition; every one of them that finds a pano transition
   * in flight invalidates its token and leaves no transition in flight.
   */
  function InterruptF(s: Nav, ev: Interrupt): (r: Nav)
    requires WellFormed(s)
    ensures WellFormed(r) && r.panos == s.panos
    ensures r.token >= s.token && r.uiEpoch >= s.uiEpoch && s.pending <= r.pending
    ensures !s.transitioning ==> !r.transitioning
    ensures ev != NoInterrupt && s.mode == Pano ==> !r.transitioning
    ensures ev != NoInterrupt && s.mode == Pano && s.transitioning ==> r.token > s.token
  {
    match ev
    case NoInterrupt => s
    case Cancel(restore) => CancelF(s, restore)
    case EnterDollhouse(restore) => EnterDollhouseF(s, restore)
    case Jump(j, restore, load) => JumpF(s, j, restore, load)
    case EnterPano(restore, load) => PanoEntryF(s, restore, load)
  }

  /** Several interrupts, one after the other. */
  function RunInterrupts(s: Nav, evs: seq<Interrupt>): (r: Nav)
    requires WellFormed(s)
    ensures WellFormed(r) && r.panos == s.panos
    decreases |evs|
  {
    if evs == [] then s else RunInterrupts(InterruptF(s, evs[0]), evs[1..])
  }

  /**
   * A stale token stays stale, an idle state stays idle, the UI epoch never
   * goes back and every scheduled reveal stays where it is, however many
   * interrupts run.
   */
  lemma {:induction false} RunInterruptsMonotone(s: Nav, evs: seq<Interrupt>)
    requires WellFormed(s)
    ensures RunInterrupts(s, evs).token >= s.token
    ensures !s.transitioning ==> !RunInterrupts(s, evs).transitioning
    ensures RunInterrupts(s, evs).uiEpoch >= s.uiEpoch && s.pending <= RunInterrupts(s, evs).pending
    decreases |evs|
  {
    if evs != [] {
      RunInterruptsMonotone(InterruptF(s, evs[0]), evs[1..]);
    }
  }

  /** Running one more interrupt extends the run. */
  lemma {:induction false} RunInterruptsSnoc(s: Nav, evs: seq<Interrupt>, ev: Interrupt)
    requires WellFormed(s)
    ensures RunInterrupts(s, evs + [ev]) == InterruptF(RunInterrupts(s, evs), ev)
    decreases |evs|
  {
    if evs == [] {
      assert [] + [ev] == [ev];
      assert RunInterrupts(InterruptF(s, ev), []) == InterruptF(s, ev);
    } else {
      assert (evs + [ev])[1..] == evs[1..] + [ev];
      RunInterruptsSnoc(InterruptF(s, evs[0]), evs[1..], ev);
    }
  }

  /** The guard at the top of `goTo`. */
  predicate GoToAccepts(mode: Mode, transitioning: bool, index: int, t: int, count: nat)
  {
    mode == Pano && !transitioning && t != index && 0 <= t < count && (t - index == 1 || index - t == 1)
  }

  /**
   * A reveal's timer fires: the reveal leaves the queue, and shows its
   * controls only if no mode switch happened since it was scheduled.
   */
  function FireRevealF(s: Nav, k: nat): (r: Nav)
    requires k < |s.pending|
    ensures r.pending == s.pending[..k] + s.pending[k + 1..]
  {
    var v := s.pending[k];
    var s1 := s.(pending := s.pending[..k] + s.pending[k + 1..]);
    if v.epoch != s.uiEpoch || v.forMode != s.mode then s1
    else if v.forMode == Pano then s1.(navVisible := true)
    else s1.(dollVisible := true)
  }

  /**
   * Any reveal scheduled before a mode switch is a no-op when its timer fires,
   * whatever the switch was and whatever operations run between the switch
   * and the timer: it is still queued at the same place, and firing it only
   * removes it.
   */
  lemma StaleRevealIsInert(s: Nav, m: Mode, restore: LoadOutcome, evs: seq<Interrupt>, k: nat)
    requires WellFormed(s) && k < |s.pending|
    ensures var s' := RunInterrupts(SetModeF(s, m, restore), evs);
      k < |s'.pending| && s'.pending[k] == s.pending[k] &&
      FireRevealF(s', k) == s'.(pending := s'.pending[..k] + s'.pending[k + 1..])
  {
    var s1 := SetModeF(s, m, restore);
    assert s.pending[k] in s1.pending;
    RunInterruptsMonotone(s1, evs);
  }

  // ---------------------------------------------------------------------------
  // Interleavings
  // ---------------------------------------------------------------------------

  /** The interrupt at suspension point `k`; none beyond the listed ones. */
  function At(during: seq<Interrupt>, k: nat): Interrupt
  {
    if k < |during| then during[k] else NoInterrupt
  }

  /** No other operation runs while the operation is suspended. */
  predicate Quiet(during: seq<Interrupt>)
  {
    forall k :: 0 <= k < |during| ==> during[k] == NoInterrupt
  }

  /** `stillValid()` for a captured token. */
  predicate StillValid(s: Nav, my: nat)
  {
    s.token == my && s.mode == Pano
  }

  // ---------------------------------------------------------------------------
  // goTo, uninterrupted
  // ---------------------------------------------------------------------------

  /** The synchronous part of `ensurePanoLoaded(t)` for a slot in range: a miss issues the load. */
  function Issue(s: Nav, t: int): (r: Nav)
    requires 0 <= t < |s.panos| == |s.cache|
  {
    if s.cache[t].Some? then s else s.(loads := s.loads + [s.panos[t]])
  }

  /** The first steps of `goTo` and of the restart: claim the transition flag, disable input. */
  function BeginTransition(s: Nav): Nav
  {
    s.(transitioning := true, uiEnabled := false)
  }

  /** The destination load settling: a miss that succeeds fills slot `t`. */
  function Settle(s: Nav, t: int, cached: bool, dest: LoadOutcome): (r: Nav)
    requires |s.cache| == |s.panos|
  {
    if !cached && dest == LoadOk then Store(s, t) else s
  }

  /** Arrival at node `t`: show its texture, set the index, update the indicator. */
  function Commit(s: Nav, t: int): (r: Nav)
    requires 0 <= t < |s.panos|
    ensures r == s.(shown := Showing(Texture(s.panos[t])), index := t,
                    indicator := Naming.IndicatorText(t, |s.panos|),
                    emitted := s.emitted + [NodeChange(t, t + 1, s.mode)])
  {
    Display(s, t, Tex(Texture(s.panos[t])))
  }

  /** The `catch` of `goTo` while still valid: load `t` again and hard-cut to it. */
  function Fallback(s: Nav, t: int, outcome: LoadOutcome): (r: Nav)
    requires WellFormed(s) && 0 <= t < |s.panos|
    ensures WellFormed(r) && r.panos == s.panos
    ensures s.cache[t].Some? || outcome == LoadOk ==>
      r == s.(index := t, transitioning := false, uiEnabled := true,
              shown := Showing(Texture(s.panos[t])),
              cache := s.cache[t := Some(Texture(s.panos[t]))],
              loads := if s.cache[t].Some? then s.loads else s.loads + [s.panos[t]],
              indicator := Naming.IndicatorText(t, |s.panos|),
              emitted := s.emitted + [NodeChange(t, t + 1, s.mode)])
    ensures s.cache[t].None? && outcome == LoadFails ==>
      r == s.(transitioning := false, uiEnabled := true, loads := s.loads + [s.panos[t]])
  {
    EnsureLoadedMemo(s, t, outcome);
    var (s1, res) := EnsureLoaded(s, t, outcome);
    if res.LoadError? then PanoUIActive(s1) else PanoUIActive(Commit(s1, t))
  }

  /**
   * `goTo`'s `catch` while still valid, after the clip threw. `outstanding`:
   * the destination was a miss whose load succeeds. If that load landed
   * before the clip failed (`landedFirst`), the fallback finds its texture
   * cached; otherwise the fallback finds the slot still empty and loads `t`
   * a second time, and the first load fills the slot when it lands, after
   * the fallback has settled.
   */
  function CatchF(s: Nav, t: int, outstanding: bool, landedFirst: bool, fallback: LoadOutcome): (r: Nav)
    requires WellFormed(s) && 0 <= t < |s.panos|
    ensures WellFormed(r) && r.panos == s.panos
  {
    if outstanding && landedFirst then Fallback(Store(s, t), t, fallback)
    else if outstanding then Store(Fallback(s, t, fallback), t)
    else Fallback(s, t, fallback)
  }

  /**
   * `goTo(t)` when nothing interleaves: the guard, then the transition clip
   * `url` (`videoOk`/`seekOk`: whether its source loads and seeks), the
   * destination load issued before the clip (`landedFirst`: whether it has
   * settled by the time a failing clip throws), and the fallback hard cut
   * when the clip or that load throws. Whether `play()` starts does not
   * change the outcome: a clip that cannot play still arrives.
   */
  function GoToF(s: Nav, t: int, url: string, videoOk: bool, seekOk: bool, dest: LoadOutcome, landedFirst: bool, fallback: LoadOutcome): (r: Nav)
    requires WellFormed(s)
    ensures WellFormed(r) && r.panos == s.panos
  {
    if !GoToAccepts(s.mode, s.transitioning, s.index, t, |s.panos|) then s
    else
      var cached := s.cache[t].Some?;
      var s1 := Issue(BeginTransition(s), t).(clipUrl := url);
      var threw := !(videoOk && seekOk);
      AfterClipF(if threw then s1 else s1.(shown := Clip), t, cached, threw, dest, landedFirst, fallback)
  }

  /**
   * `goTo` after its clip has loaded (`threw`: it did not), from the state
   * `s` with the clip on screen or not: the `catch`, or the destination
   * settling and then the arrival or the fallback.
   */
  function AfterClipF(s: Nav, t: int, cached: bool, threw: bool, dest: LoadOutcome, landedFirst: bool, fallback: LoadOutcome): (r: Nav)
    requires WellFormed(s) && 0 <= t < |s.panos|
  {
    if threw then CatchF(s, t, !cached && dest == LoadOk, landedFirst, fallback)
    else if cached || dest == LoadOk then PanoUIActive(Commit(Settle(s, t, cached, dest), t))
    else Fallback(s, t, fallback)
  }

  /** `goTo` changes nothing at all when its guard refuses the target. */
  lemma GoToRejects(s: Nav, t: int, url: string, videoOk: bool, seekOk: bool, dest: LoadOutcome, landedFirst: bool, fallback: LoadOutcome)
    requires WellFormed(s)
    requires !GoToAccepts(s.mode, s.transitioning, s.index, t, |s.panos|)
    ensures GoToF(s, t, url, videoOk, seekOk, dest, landedFirst, fallback) == s
  {
  }

  /**
   * An accepted, uninterrupted `goTo(t)` that obtains the texture of `t` in
   * time -- from the cache, from the first load when the clip played or that
   * load landed before the clip failed, or from the fallback load -- ends at
   * `t`, idle, with input enabled, the token untouched, `t`'s panorama shown
   * and cached, the indicator reading `t + 1` and exactly one node change
   * posted.
   */
  lemma GoToArrives(s: Nav, t: int, url: string, videoOk: bool, seekOk: bool, dest: LoadOutcome, landedFirst: bool, fallback: LoadOutcome)
    requires WellFormed(s)
    requires GoToAccepts(s.mode, s.transitioning, s.index, t, |s.panos|)
    requires s.cache[t].Some? || (dest == LoadOk && ((videoOk && seekOk) || landedFirst)) || fallback == LoadOk
    ensures var r := GoToF(s, t, url, videoOk, seekOk, dest, landedFirst, fallback);
      && r.index == t && !r.transitioning && r.uiEnabled && r.token == s.token && r.mode == Pano
      && r.shown == Showing(Texture(s.panos[t])) && r.cache[t] == Some(Texture(s.panos[t]))
      && r.indicator == Naming.IndicatorText(t, |s.panos|)
      && r.emitted == s.emitted + [NodeChange(t, t + 1, Pano)]
      && r.uiEpoch == s.uiEpoch && r.pending == s.pending
  {
    var r := GoToF(s, t, url, videoOk, seekOk, dest, landedFirst, fallback);
    var cached := s.cache[t].Some?;
    var threw := !(videoOk && seekOk);
    var s1 := Issue(BeginTransition(s), t).(clipUrl := url);
    var s2 := if threw then s1 else s1.(shown := Clip);
    assert r == AfterClipF(s2, t, cached, threw, dest, landedFirst, fallback);
    assert s2.cache == s.cache && s2.mode == Pano && s2.token == s.token && s2.emitted == s.emitted;
    assert s2.uiEpoch == s.uiEpoch && s2.pending == s.pending && s2.panos == s.panos;
    if !threw && (cached || dest == LoadOk) {
      var s3 := Settle(s2, t, cached, dest);
      assert s3.cache[t] == Some(Texture(s.panos[t]));
      assert r == PanoUIActive(Commit(s3, t));
    } else if threw && !cached && dest == LoadOk && !landedFirst {
      assert r == Store(Fallback(s2, t, fallback), t);
      FallbackArrives(s2, t, fallback);
    } else if threw && !cached && dest == LoadOk {
      var s3 := Store(s2, t);
      assert r == Fallback(s3, t, fallback);
      FallbackArrives(s3, t, fallback);
    } else {
      assert r == Fallback(s2, t, fallback);
      FallbackArrives(s2, t, fallback);
    }
  }

  /** A fallback that obtains the texture of `t` arrives at `t` and releases the UI. */
  lemma FallbackArrives(s: Nav, t: int, outcome: LoadOutcome)
    requires WellFormed(s) && 0 <= t < |s.panos|
    requires s.cache[t].Some? || outcome == LoadOk
    ensures var r := Fallback(s, t, outcome);
      && r.index == t && !r.transitioning && r.uiEnabled && r.token == s.token && r.mode == s.mode
      && r.shown == Showing(Texture(s.panos[t])) && r.cache[t] == Some(Texture(s.panos[t]))
      && r.indicator == Naming.IndicatorText(t, |s.panos|)
      && r.emitted == s.emitted + [NodeChange(t, t + 1, s.mode)]
      && r.uiEpoch == s.uiEpoch && r.pending == s.pending
  {
  }

  /**
   * When both loads of `t` fail, `goTo` stays at its node but still releases
   * the transition flag and re-enables input; it posts no node change, and it
   * has fetched the destination twice: the fallback does not reuse the
   * failed first attempt.
   */
  lemma GoToStrands(s: Nav, t: int, url: string, videoOk: bool, seekOk: bool, landedFirst: bool)
    requires WellFormed(s)
    requires GoToAccepts(s.mode, s.transitioning, s.index, t, |s.panos|)
    requires s.cache[t].None?
    ensures var r := GoToF(s, t, url, videoOk, seekOk, LoadFails, landedFirst, LoadFails);
      && r.index == s.index && !r.transitioning && r.uiEnabled && r.token == s.token
      && r.emitted == s.emitted && r.cache == s.cache
      && r.loads == s.loads + [s.panos[t], s.panos[t]]
      && r.shown == (if videoOk && seekOk then Clip else s.shown)
  {
  }

  /**
   * The loads an uninterrupted `goTo` issues: one for a missing destination,
   * and a second one when the first failed, or when the clip failed before
   * the first had landed; none when the destination was cached. Every load
   * it issues is of the destination's own URL.
   */
  lemma GoToLoads(s: Nav, t: int, url: string, videoOk: bool, seekOk: bool, dest: LoadOutcome, landedFirst: bool, fallback: LoadOutcome)
    requires WellFormed(s)
    requires GoToAccepts(s.mode, s.transitioning, s.index, t, |s.panos|)
    ensures var r := GoToF(s, t, url, videoOk, seekOk, dest, landedFirst, fallback);
      r.loads == s.loads
        + (if s.cache[t].Some? then [] else [s.panos[t]])
        + (if s.cache[t].Some? || (dest == LoadOk && ((videoOk && seekOk) || landedFirst)) then [] else [s.panos[t]])
  {
    var r := GoToF(s, t, url, videoOk, seekOk, dest, landedFirst, fallback);
    var cached := s.cache[t].Some?;
    var threw := !(videoOk && seekOk);
    var s1 := Issue(BeginTransition(s), t).(clipUrl := url);
    var s2 := if threw then s1 else s1.(shown := Clip);
    assert r == AfterClipF(s2, t, cached, threw, dest, landedFirst, fallback);
    assert s2.loads == s.loads + (if cached then [] else [s.panos[t]]) && s2.cache == s.cache;
    if !threw && (cached || dest == LoadOk) {
      var s3 := Settle(s2, t, cached, dest);
      assert s3.loads == s2.loads;
      assert r == PanoUIActive(Commit(s3, t));
    } else if threw && !cached && dest == LoadOk && landedFirst {
      var s3 := Store(s2, t);
      assert s3.loads == s2.loads && s3.cache[t].Some?;
      assert r == Fallback(s3, t, fallback);
    } else if threw && !cached && dest == LoadOk {
      assert r == Store(Fallback(s2, t, fallback), t);
    } else {
      assert r == Fallback(s2, t, fallback);
    }
  }

  /**
   * When the clip fails before a successful first load of a missing
   * destination has landed, `goTo` fetches the destination twice; the first
   * load still fills the slot. If the second load fails, `goTo` stays at its
   * node, idle, with input enabled and no node change posted, although `t`
   * ends up cached.
   */
  lemma GoToRacesClipFailure(s: Nav, t: int, url: string, videoOk: bool, seekOk: bool, fallback: LoadOutcome)
    requires WellFormed(s)
    requires GoToAccepts(s.mode, s.transitioning, s.index, t, |s.panos|)
    requires s.cache[t].None? && !(videoOk && seekOk)
    ensures var r := GoToF(s, t, url, videoOk, seekOk, LoadOk, false, fallback);
      && r.loads == s.loads + [s.panos[t], s.panos[t]]
      && r.cache[t] == Some(Texture(s.panos[t]))
      && !r.transitioning && r.uiEnabled && r.token == s.token
      && (fallback == LoadOk ==> r.index == t && r.shown == Showing(Texture(s.panos[t])))
      && (fallback == LoadFails ==> r.index == s.index && r.emitted == s.emitted)
  {
    var s1 := Issue(BeginTransition(s), t).(clipUrl := url);
    EnsureLoadedMemo(s1, t, fallback);
  }

  /** The clip is loaded from `url` whenever the guard passes, and stays on screen only if it started. */
  lemma GoToPlaysClip(s: Nav, t: int, url: string, videoOk: bool, seekOk: bool, dest: LoadOutcome, landedFirst: bool, fallback: LoadOutcome)
    requires WellFormed(s)
    requires GoToAccepts(s.mode, s.transitioning, s.index, t, |s.panos|)
    ensures GoToF(s, t, url, videoOk, seekOk, dest, landedFirst, fallback).clipUrl == url
  {
    var r := GoToF(s, t, url, videoOk, seekOk, dest, landedFirst, fallback);
    var cached := s.cache[t].Some?;
    var threw := !(videoOk && seekOk);
    var s1 := Issue(BeginTransition(s), t).(clipUrl := url);
    var s2 := if threw then s1 else s1.(shown := Clip);
    assert r == AfterClipF(s2, t, cached, threw, dest, landedFirst, fallback);
    assert s2.clipUrl == url;
    if !threw && (cached || dest == LoadOk) {
      var s3 := Settle(s2, t, cached, dest);
      assert s3.clipUrl == url;
      assert r == PanoUIActive(Commit(s3, t));
    } else if threw && !cached && dest == LoadOk && landedFirst {
      var s3 := Store(s2, t);
      assert s3.clipUrl == url;
      assert r == Fallback(s3, t, fallback);
    } else if threw && !cached && dest == LoadOk {
      assert r == Store(Fallback(s2, t, fallback), t);
    } else {
      assert r == Fallback(s2, t, fallback);
    }
  }

  // ---------------------------------------------------------------------------
  // restartTourFromFirstNodeWithFade
  // ---------------------------------------------------------------------------

  /** The guard at the top of `restartTourFromFirstNodeWithFade`. */
  predicate RestartAccepts(s: Nav)
  {
    s.mode == Pano && !s.transitioning && |s.panos| > 0
  }

  /** The `finally` of the restart as written: no token check. */
  function ClearAsWritten(s: Nav): Nav
  {
    s.(transitioning := false, uiEnabled := if s.mode == Pano then true else s.uiEnabled)
  }

  /**
   * `restartTourFromFirstNodeWithFade` as written, with `e0`, `e1`, `e2` the
   * operations that run during the fade to black, the load of node 0 and the
   * fade back. It never looks at the cancel token: whatever ran meanwhile,
   * it commits node 0 once that load succeeds.
   */
  function RestartAsWrittenF(s: Nav, e0: Interrupt, e1: Interrupt, e2: Interrupt, load: LoadOutcome): (r: Nav)
    requires WellFormed(s)
    ensures WellFormed(r) && r.panos == s.panos
  {
    if !RestartAccepts(s) then s
    else RestartAsWrittenTailF(InterruptF(BeginTransition(s), e0), e1, e2, load)
  }

  /** The restart as written after its fade to black: blank, load node 0, show it, fade back in. */
  function RestartAsWrittenTailF(s: Nav, e1: Interrupt, e2: Interrupt, load: LoadOutcome): (r: Nav)
    requires WellFormed(s) && |s.panos| > 0
    ensures WellFormed(r) && r.panos == s.panos
  {
    EnsureLoadedMemo(s.(shown := Blank), 0, load);
    var (s2, res) := EnsureLoaded(s.(shown := Blank), 0, load);
    var s3 := InterruptF(s2, e1);
    if res.LoadError? then ClearAsWritten(s3)
    else ClearAsWritten(InterruptF(Commit(s3, 0), e2))
  }

  /**
   * A hard jump to node `j` that lands during the restart's first fade is
   * overwritten: the restart as written still ends on node 0, where the jump
   * alone would have ended on `j`.
   */
  lemma RestartAsWrittenOverridesJump(s: Nav, j: int, restore: LoadOutcome)
    requires WellFormed(s) && RestartAccepts(s) && j != 0
    ensures RestartAsWrittenF(s, Jump(j, restore, LoadOk), NoInterrupt, NoInterrupt, LoadOk).index == 0
    ensures JumpF(BeginTransition(s), j, restore, LoadOk).index == j
  {
  }

  /** The restart's `finally` with the token check the other transitions use. */
  function Clear(s: Nav, my: nat): Nav
  {
    if StillValid(s, my) then PanoUIActive(s) else s
  }

  /**
   * The restart with `stillValid()` checks after each suspension, as `goTo`
   * has: once another operation has invalidated its token it writes nothing.
   */
  function RestartF(s: Nav, e0: Interrupt, e1: Interrupt, e2: Interrupt, load: LoadOutcome): (r: Nav)
    requires WellFormed(s)
    ensures WellFormed(r) && r.panos == s.panos
  {
    if !RestartAccepts(s) then s
    else
      var s1 := InterruptF(BeginTransition(s), e0);
      if !StillValid(s1, s.token) then s1 else RestartTailF(s1, s.token, e1, e2, load)
  }

  /** The corrected restart after its fade to black: blank, load node 0, show it, fade back in. */
  function RestartTailF(s: Nav, my: nat, e1: Interrupt, e2: Interrupt, load: LoadOutcome): (r: Nav)
    requires WellFormed(s) && |s.panos| > 0
    ensures WellFormed(r) && r.panos == s.panos
  {
    EnsureLoadedMemo(s.(shown := Blank), 0, load);
    var (s2, res) := EnsureLoaded(s.(shown := Blank), 0, load);
    var s3 := InterruptF(s2, e1);
    if res.LoadError? || !StillValid(s3, my) then Clear(s3, my)
    else Clear(InterruptF(Commit(s3, 0), e2), my)
  }

  /**
   * The corrected restart yields to an operation that interrupts its fade to
   * black: the end state is exactly what that operation left. In particular a
   * hard jump during the first fade stands.
   */
  lemma RestartYieldsDuringFadeOut(s: Nav, e0: Interrupt, e1: Interrupt, e2: Interrupt, load: LoadOutcome)
    requires WellFormed(s) && RestartAccepts(s) && e0 != NoInterrupt
    ensures RestartF(s, e0, e1, e2, load) == InterruptF(BeginTransition(s), e0)
  {
  }

  /** The same while node 0 is loading. */
  lemma RestartYieldsDuringLoad(s: Nav, e1: Interrupt, e2: Interrupt, load: LoadOutcome)
    requires WellFormed(s) && RestartAccepts(s) && e1 != NoInterrupt
    ensures RestartF(s, NoInterrupt, e1, e2, load) ==
      InterruptF(EnsureLoaded(BeginTransition(s).(shown := Blank), 0, load).0, e1)
  {
    var s1 := BeginTransition(s).(shown := Blank);
    EnsureLoadedMemo(s1, 0, load);
  }

  /** The same during the fade back in, after node 0 was committed. */
  lemma RestartYieldsDuringFadeIn(s: Nav, e2: Interrupt, load: LoadOutcome)
    requires WellFormed(s) && RestartAccepts(s) && e2 != NoInterrupt
    requires !EnsureLoaded(BeginTransition(s).(shown := Blank), 0, load).1.LoadError?
    ensures RestartF(s, NoInterrupt, NoInterrupt, e2, load) ==
      InterruptF(Commit(EnsureLoaded(BeginTransition(s).(shown := Blank), 0, load).0, 0), e2)
  {
    var s1 := BeginTransition(s).(shown := Blank);
    EnsureLoadedMemo(s1, 0, load);
    var s3 := Commit(EnsureLoaded(s1, 0, load).0, 0);
    assert s3.token == s.token && s3.mode == Pano && s3.transitioning;
  }

  /**
   * Left alone, the restart ends on node 0 (when its panorama is cached or
   * loads), idle, with input enabled and the change posted; with a failing
   * load it stays where it was but still releases the flag. The code as
   * written and the corrected restart agree on every uninterrupted run.
   */
  lemma RestartQuiet(s: Nav, load: LoadOutcome)
    requires WellFormed(s) && RestartAccepts(s)
    ensures var r := RestartF(s, NoInterrupt, NoInterrupt, NoInterrupt, load);
      && r == RestartAsWrittenF(s, NoInterrupt, NoInterrupt, NoInterrupt, load)
      && !r.transitioning && r.uiEnabled && r.token == s.token && r.mode == Pano
      && ((s.cache[0].Some? || load == LoadOk) ==>
            r.index == 0 && r.shown == Showing(Texture(s.panos[0]))
            && r.emitted == s.emitted + [NodeChange(0, 1, Pano)])
      && ((s.cache[0].None? && load == LoadFails) ==>
            r.index == s.index && r.shown == Blank && r.emitted == s.emitted)
  {
  }

  /**
   * A hard jump to `j` ends in pano mode at `j`, unchecked against the node
   * count: in range, with the texture cached or loaded, `j`'s panorama shows;
   * out of range the load yields `null` and the sphere stays black.
   */
  lemma JumpLands(s: Nav, j: int, restore: LoadOutcome, load: LoadOutcome)
    requires WellFormed(s)
    ensures var r := JumpF(s, j, restore, load);
      && (0 <= j < |s.panos| && (s.cache[j].Some? || load == LoadOk) ==>
            r.index == j && r.shown == Showing(Texture(s.panos[j]))
            && r.emitted[|r.emitted| - 1] == NodeChange(j, j + 1, Pano))
      && ((j < 0 || j >= |s.panos|) ==> r.index == j && r.shown == Blank)
      && (0 <= j < |s.panos| && j != s.index && s.cache[j].None? && load == LoadFails ==>
            r.index == s.index && r.shown == Blank)
  {
    var s2 := EnterPanoF(s, restore);
    EnsureLoadedMemo(s2, j, load);
    var (s3, res) := EnsureLoaded(s2, j, load);
    if j < 0 || j >= |s.panos| {
      assert res == NullTex;
    } else if s2.cache[j].Some? {
      assert res == Tex(Texture(s.panos[j]));
    } else {
      assert s2.cache[j] == s.cache[j];
    }
  }

  // ---------------------------------------------------------------------------
  // Entering pano from the tab or a message
  // ---------------------------------------------------------------------------

  /**
   * The pano tab and `RTF_SET_MODE` "pano": cancel, enter pano, blank, reload
   * the current node; once that load settles show it and schedule the pano
   * reveal. A rejected load leaves the sphere black, pano input already on.
   */
  function PanoEntryF(s: Nav, restore: LoadOutcome, load: LoadOutcome): (r: Nav)
    requires WellFormed(s)
    ensures WellFormed(r) && r.panos == s.panos && r.mode == Pano && !r.transitioning
    ensures r.token == (if s.transitioning then s.token + 1 else s.token)
    ensures r.uiEpoch > s.uiEpoch && s.pending <= r.pending
  {
    var s1 := EnterPanoF(s, restore);
    EnsureLoadedMemo(s1, s1.index, load);
    var (s2, res) := EnsureLoaded(s1, s1.index, load);
    if res.LoadError? then s2 else ScheduleReveal(s2.(shown := ShownOf(res)), Pano)
  }

  /** The pano tab: nothing in pano mode; otherwise a pano entry whose cancel, outside pano, restores nothing. */
  function TabPanoF(s: Nav, load: LoadOutcome): (r: Nav)
    requires WellFormed(s)
    ensures WellFormed(r) && r.panos == s.panos && r.mode == Pano
  {
    if s.mode == Pano then s else PanoEntryF(s, LoadOk, load)
  }

  /**
   * Entering pano keeps the current node, leaves no transition in flight,
   * enables input and starts a new UI epoch, so that every reveal scheduled
   * before is stale; when the node's panorama is cached or loads, it is shown
   * and a pano reveal for the new epoch is pending.
   */
  lemma PanoEntryShowsCurrent(s: Nav, restore: LoadOutcome, load: LoadOutcome)
    requires WellFormed(s)
    ensures var r := PanoEntryF(s, restore, load);
      && r.index == s.index && !r.transitioning && r.uiEnabled && r.uiEpoch > s.uiEpoch
      && |r.pending| >= |s.pending|
      && (forall k :: 0 <= k < |s.pending| ==> r.pending[k] == s.pending[k] && r.pending[k].epoch < r.uiEpoch)
      && (0 <= s.index < |s.panos| && (s.cache[s.index].Some? || load == LoadOk) ==>
            r.shown == Showing(Texture(s.panos[s.index]))
            && r.pending == s.pending + [Reveal(r.uiEpoch, Pano)])
  {
    var s1 := EnterPanoF(s, restore);
    assert s1.pending == s.pending;
    EnsureLoadedMemo(s1, s1.index, load);
  }

  /** A second click on the pano tab does nothing. */
  lemma TabPanoIdempotent(s: Nav, load1: LoadOutcome, load2: LoadOutcome)
    requires WellFormed(s)
    ensures TabPanoF(TabPanoF(s, load1), load2) == TabPanoF(s, load1)
  {
  }
}
