/**
 * The pano viewer's module state in src/main.js (`state`, `mode`,
 * `transitionCancelToken`, `__uiEpoch`, the texture cache, ...) as the fields
 * of one object, and the operations that change it step by step.
 *
 * Every `await` of `goTo` and of the restart is a suspension point at which
 * one other operation (`Interrupt`) may run to completion. Each method that
 * such an operation consists of is proved to change the fields exactly as the
 * corresponding function of module NavSpec changes a `Nav` value.
 */
module Navigation {

  import opened Base
  import Naming
  import opened NavSpec
  import Commands

  /**
   * How the outside world behaves during one `goTo`: the operation (if any)
   * that runs at each suspension point, whether the clip's source loads and
   * seeks, whether `play()` starts, how the destination load and the
   * fallback load end, and whether the destination load has settled by the
   * time a failing clip throws.
   *
   * Suspension points: 0 the turn towards the hero view, 1 the clip source,
   * 2 the seek, 3 `play()`, 4 the end of the clip, 5 the camera steering,
   * 6 the destination texture, 7 the settle turn, 8 the fallback load,
   * 9 the fallback turn.
   */
  datatype GoToEnv = GoToEnv(
    during: seq<Interrupt>,
    videoOk: bool,
    seekOk: bool,
    playStarts: bool,
    destLoad: LoadOutcome,
    destFirst: bool,
    fallbackLoad: LoadOutcome)

  /** The restart's suspension points: 0 fade to black, 1 node 0's load, 2 fade back in. */
  datatype RestartEnv = RestartEnv(during: seq<Interrupt>, load: LoadOutcome)

  /**
   * How a transition ended. `Cancelled` records the state at the moment its
   * token was invalidated (`cut`), the operations that ran from then on
   * (`after`), and whether its destination load was still outstanding
   * (`lateStore`: that load will still fill its cache slot when it lands).
   */
  datatype Run = Completed | Cancelled(cut: Nav, after: seq<Interrupt>, lateStore: bool)

  class Viewer {
    // Tour configuration, fixed once loaded.
    const base: string
    const panoPattern: string
    const forwardPattern: string
    const reversePattern: string
    const panos: seq<string>                     // PANOS
    const textures: array<Option<Texture>>       // state.panoTextures

    var index: int                                // state.index
    var isTransitioning: bool                     // state.isTransitioning
    var cancelToken: nat                          // transitionCancelToken
    var mode: Mode
    var uiEpoch: nat                              // __uiEpoch
    var uiEnabled: bool                           // back/forward enabled
    var shown: Shown                              // the pano sphere's map
    var loads: seq<string>                        // pano loads issued
    var emitted: seq<NodeChange>                  // RTF_NODE_CHANGE posted
    var indicator: string
    var pending: seq<Reveal>                      // scheduled UI reveals
    var navVisible: bool
    var dollVisible: bool
    var clipUrl: string                           // transitionVideo.src

    /** The fields as a `Nav` value. */
    ghost function Snap(): Nav
      reads this, textures
    {
      Nav(panos, index, isTransitioning, cancelToken, mode, uiEpoch, uiEnabled, shown,
          textures[..], loads, emitted, indicator, pending, navVisible, dollVisible, clipUrl)
    }

    /** One texture slot per pano, and the state well formed (PANOS is fixed by the constructor). */
    ghost predicate Valid()
      reads this, textures
    {
      textures.Length == |panos| && WellFormed(Snap())
    }

    /**
     * `init` up to the tour being configured: pano mode entered once (epoch 1,
     * node 0 posted), input disabled until the intro ends, the sphere black,
     * PANOS built from the pattern and an empty texture slot per node.
     */
    constructor(base: string, panoPattern: string, forwardPattern: string, reversePattern: string, count: nat)
      ensures Valid()
      ensures this.base == base && this.panoPattern == panoPattern
      ensures this.forwardPattern == forwardPattern && this.reversePattern == reversePattern
      ensures panos == Naming.BuildPanos(base, panoPattern, count)
      ensures fresh(textures) && forall k :: 0 <= k < textures.Length ==> textures[k].None?
      ensures index == 0 && !isTransitioning && cancelToken == 0 && mode == Pano && uiEpoch == 1
      ensures !uiEnabled && shown == Blank && loads == [] && pending == []
      ensures emitted == [NodeChange(0, 1, Pano)]
    {
      this.base := base;
      this.panoPattern := panoPattern;
      this.forwardPattern := forwardPattern;
      this.reversePattern := reversePattern;
      panos := Naming.BuildPanos(base, panoPattern, count);
      textures := new Option<Texture>[count](_ => None);
      index := 0;
      isTransitioning := false;
      cancelToken := 0;
      mode := Pano;
      uiEpoch := 1;
      uiEnabled := false;
      shown := Blank;
      loads := [];
      emitted := [NodeChange(0, 1, Pano)];
      indicator := "";
      pending := [];
      navVisible := false;
      dollVisible := false;
      clipUrl := "";
    }

    // -------------------------------------------------------------------------
    // Texture cache
    // -------------------------------------------------------------------------

    /** `state.panoTextures[i] = tex` for slot `i`'s own texture. */
    method StoreTexture(i: int)
      requires Valid()
      modifies textures
      ensures Valid() && Snap() == Store(old(Snap()), i)
    {
      if 0 <= i < textures.Length {
        textures[i] := Some(Texture(panos[i]));
      }
    }

    /** `ensurePanoLoaded(i)`, with `outcome` deciding how a miss's load ends. */
    method EnsurePanoLoaded(i: int, outcome: LoadOutcome) returns (r: Loaded)
      requires Valid()
      modifies this`loads, textures
      ensures Valid()
      ensures Snap() == EnsureLoaded(old(Snap()), i, outcome).0
      ensures r == EnsureLoaded(old(Snap()), i, outcome).1
    {
      EnsureLoadedMemo(Snap(), i, outcome);
      if i < 0 || i >= textures.Length {
        return NullTex;
      }
      if textures[i].Some? {
        return Tex(textures[i].value);
      }
      loads := loads + [panos[i]];
      if outcome == LoadFails {
        return LoadError;
      }
      StoreTexture(i);
      r := Tex(Texture(panos[i]));
    }

    // -------------------------------------------------------------------------
    // Indicator, node changes, cancellation, modes
    // -------------------------------------------------------------------------

    /** `emitListingNodeChange(i)`. */
    method EmitChange(i: int)
      requires Valid()
      modifies this`emitted
      ensures Valid() && Snap() == NavSpec.EmitChange(old(Snap()), i)
    {
      if i >= 0 {
        emitted := emitted + [NodeChange(i, Naming.NodeIdForIndex(i), mode)];
      }
    }

    /** `updateIndicator(i)`. */
    method UpdateIndicator(i: int)
      requires Valid()
      modifies this`indicator, this`emitted
      ensures Valid() && Snap() == NavSpec.UpdateIndicator(old(Snap()), i)
    {
      ghost var s0 := Snap();
      indicator := Naming.IndicatorText(i, |panos|);
      assert Snap() == s0.(indicator := indicator);
      EmitChange(i);
    }

    /** `cancelActivePanoTransition`, its restore load ending with `restore`. */
    method CancelActivePanoTransition(restore: LoadOutcome)
      requires Valid()
      modifies this, textures
      ensures Valid() && Snap() == CancelF(old(Snap()), restore)
    {
      cancelToken, isTransitioning := cancelToken + 1, false;
      if mode == Pano {
        RestoreCurrentPano(restore);
      }
    }

    /** The cancel's pano-mode tail. */
    method RestoreCurrentPano(restore: LoadOutcome)
      requires Valid()
      modifies this`loads, this`shown, this`uiEnabled, textures
      ensures Valid() && Snap() == RestoreF(old(Snap()), restore)
    {
      var tex := EnsurePanoLoaded(index, restore);
      shown, uiEnabled := ShownOf(tex), true;
    }

    /** `setMode(m)`, mode/epoch part. */
    method SetMode(m: Mode, restore: LoadOutcome)
      requires Valid()
      modifies this, textures
      ensures Valid() && Snap() == SetModeF(old(Snap()), m, restore)
    {
      if mode == Pano && m != Pano && isTransitioning {
        CancelLeavingPano(restore);
      }
      SwitchMode(m);
    }

    /**
     * The cancel `setMode` starts on leaving pano and does not await: its
     * restore settles after the switch, so a rejected load does nothing.
     */
    method CancelLeavingPano(restore: LoadOutcome)
      requires Valid()
      modifies this`cancelToken, this`isTransitioning, this`loads, this`shown, this`uiEnabled, textures
      ensures Valid() && Snap() == CancelLeavingF(old(Snap()), restore)
    {
      cancelToken, isTransitioning := cancelToken + 1, false;
      RestoreAfterLeaving(restore);
    }

    /** That cancel's restore, settling once the mode is no longer pano. */
    method RestoreAfterLeaving(restore: LoadOutcome)
      requires Valid()
      modifies this`loads, this`shown, this`uiEnabled, textures
      ensures Valid() && Snap() == RestoreLeavingF(old(Snap()), restore)
    {
      var tex := EnsurePanoLoaded(index, restore);
      if !tex.LoadError? {
        shown, uiEnabled := ShownOf(tex), true;
      }
    }

    /** `setMode`'s switch once any transition is cancelled. */
    method SwitchMode(m: Mode)
      requires Valid()
      modifies this`mode, this`uiEpoch, this`navVisible, this`dollVisible, this`emitted, this`uiEnabled, this`isTransitioning
      ensures Valid() && Snap() == SwitchModeF(old(Snap()), m)
    {
      mode, uiEpoch, navVisible, dollVisible := m, uiEpoch + 1, false, false;
      if m == Pano {
        EmitChange(index);
        EnsurePanoUIActive();
      }
    }

    /** `ensurePanoUIActive`. */
    method EnsurePanoUIActive()
      requires Valid()
      modifies this`uiEnabled, this`isTransitioning
      ensures Valid() && Snap() == PanoUIActive(old(Snap()))
    {
      uiEnabled, isTransitioning := true, false;
    }

    /** The dollhouse tab (and `RTF_SET_MODE` "dollhouse"), navigation part. */
    method EnterDollhouse(restore: LoadOutcome)
      requires Valid()
      modifies this, textures
      ensures Valid() && Snap() == EnterDollhouseF(old(Snap()), restore)
    {
      if mode == Dollhouse {
        return;
      }
      shown := Blank;
      SetMode(Dollhouse, restore);
      ScheduleReveal(Dollhouse);
    }

    /** Cancel a transition in flight, enter pano mode, blank the sphere. */
    method EnterPano(restore: LoadOutcome)
      requires Valid()
      modifies this, textures
      ensures Valid() && Snap() == EnterPanoF(old(Snap()), restore)
    {
      ghost var s0 := Snap();
      if isTransitioning {
        CancelActivePanoTransition(restore);
      }
      ghost var s1 := Snap();
      assert s1 == if s0.transitioning then CancelF(s0, restore) else s0;
      SetMode(Pano, restore);
      shown := Blank;
    }

    /** `jumpToPano(j)`; a rejected load leaves the sphere black. */
    method JumpToPano(j: int, restore: LoadOutcome, load: LoadOutcome)
      requires Valid()
      modifies this, textures
      ensures Valid() && Snap() == JumpF(old(Snap()), j, restore, load)
    {
      EnterPano(restore);
      var tex := EnsurePanoLoaded(j, load);
      if tex.LoadError? {
        return;
      }
      ShowNode(j, tex);
    }

    /** Show a settled load of node `j`, commit `j`, schedule the pano reveal. */
    method ShowNode(j: int, tex: Loaded)
      requires Valid()
      modifies this`shown, this`index, this`indicator, this`emitted, this`pending
      ensures Valid() && Snap() == NavSpec.ShowNode(old(Snap()), j, tex)
    {
      Display(j, tex);
      ScheduleReveal(Pano);
    }

    /** `setSphereMap(tex)`, `state.index = j`, `updateIndicator(j)`. */
    method Display(j: int, tex: Loaded)
      requires Valid()
      modifies this`shown, this`index, this`indicator, this`emitted
      ensures Valid() && Snap() == NavSpec.Display(old(Snap()), j, tex)
    {
      shown, index := ShownOf(tex), j;
      UpdateIndicator(j);
    }

    /** Schedule the reveal of mode `m`'s controls, stamped with the current epoch. */
    method ScheduleReveal(m: Mode)
      requires Valid()
      modifies this`pending
      ensures Valid() && Snap() == NavSpec.ScheduleReveal(old(Snap()), m)
    {
      pending := pending + [Reveal(uiEpoch, m)];
    }

    /** A UI reveal's timer fires. */
    method FireReveal(k: nat)
      requires Valid() && k < |pending|
      modifies this`pending, this`navVisible, this`dollVisible
      ensures Valid() && Snap() == FireRevealF(old(Snap()), k)
    {
      var v := pending[k];
      pending := pending[..k] + pending[k + 1..];
      if v.epoch == uiEpoch && v.forMode == mode {
        if v.forMode == Pano {
          navVisible := true;
        } else {
          dollVisible := true;
        }
      }
    }

    /** One operation running while a transition is suspended. */
    method Interleave(ev: Interrupt)
      requires Valid()
      modifies this, textures
      ensures Valid() && Snap() == InterruptF(old(Snap()), ev)
    {
      match ev
      case NoInterrupt =>
      case Cancel(restore) => CancelActivePanoTransition(restore);
      case EnterDollhouse(restore) => EnterDollhouse(restore);
      case Jump(j, restore, load) => JumpToPano(j, restore, load);
      case EnterPano(restore, load) => EnterPanoAndReload(restore, load);
    }

    // -------------------------------------------------------------------------
    // Suspension and the cancel token
    // -------------------------------------------------------------------------

    /**
     * The bookkeeping of a transition that captured token `my`: while `cut`
     * is `None` the token is current, the mode is pano and the flag is set;
     * once some operation has invalidated the token, `cut` is the state just
     * before it and the current state is exactly what the operations in
     * `after` made of it -- the transition itself has written nothing since.
     */
    ghost predicate Tracks(my: nat, cut: Option<Nav>, after: seq<Interrupt>)
      reads this, textures
    {
      && (cut.None? ==> cancelToken == my && mode == Pano && isTransitioning)
      && (cut.Some? ==>
            && WellFormed(cut.value) && cut.value.panos == panos
            && cut.value.token == my && cut.value.mode == Pano && cut.value.transitioning
            && |after| > 0 && after[0] != NoInterrupt
            && Snap() == RunInterrupts(cut.value, after)
            && cancelToken > my && !isTransitioning)
    }

    /** `stillValid()`. */
    predicate StillValid(my: nat)
      reads this
    {
      cancelToken == my && mode == Pano
    }

    /** While tracked, `stillValid()` holds exactly until the token is cut. */
    lemma ValidUntilCut(my: nat, cut: Option<Nav>, after: seq<Interrupt>)
      requires Tracks(my, cut, after)
      ensures StillValid(my) <==> cut.None?
    {
    }

    /** One `await`: operation `ev` runs while this transition is suspended. */
    method Await(ev: Interrupt, ghost my: nat, ghost cut: Option<Nav>, ghost after: seq<Interrupt>)
      returns (ghost cut': Option<Nav>, ghost after': seq<Interrupt>)
      requires Valid() && Tracks(my, cut, after)
      modifies this, textures
      ensures Valid() && Tracks(my, cut', after')
      ensures Snap() == InterruptF(old(Snap()), ev)
      ensures cut.Some? ==> cut' == cut && after' == after + [ev]
      ensures cut.None? && ev == NoInterrupt ==> cut' == None
      ensures cut.None? && ev != NoInterrupt ==> cut' == Some(old(Snap())) && after' == [ev]
    {
      ghost var s0 := Snap();
      Interleave(ev);
      if cut.Some? {
        RunInterruptsSnoc(cut.value, after, ev);
        cut', after' := cut, after + [ev];
      } else if ev == NoInterrupt {
        cut', after' := None, after;
      } else {
        assert RunInterrupts(s0, [ev]) == RunInterrupts(InterruptF(s0, ev), []);
        cut', after' := Some(s0), [ev];
      }
    }

    // -------------------------------------------------------------------------
    // playTransition and goTo
    // -------------------------------------------------------------------------

    /** The clip for a move from `from` to its neighbour `t`. */
    function TransitionUrl(from: int, t: int): string
    {
      if t == from + 1 then Naming.TransitionPathForward(base, forwardPattern, from)
      else Naming.TransitionPathReverse(base, reversePattern, from)
    }

    /**
     * `playTransition(url)`: load the clip and seek it to the start (either
     * may throw), then run it. It returns early as soon as its token is stale.
     */
    method PlayTransition(url: string, env: GoToEnv, my: nat, ghost cut: Option<Nav>, ghost after: seq<Interrupt>)
      returns (threw: bool, ghost cut': Option<Nav>, ghost after': seq<Interrupt>)
      requires Valid() && Tracks(my, cut, after) && cut.None?
      modifies this, textures
      ensures Valid() && Tracks(my, cut', after')
      ensures cut'.None? ==> threw == !(env.videoOk && env.seekOk)
      ensures cut'.None? ==> Snap() == old(Snap()).(clipUrl := url, shown := if threw then old(shown) else Clip)
      ensures Quiet(env.during) ==> cut'.None?
      ensures cut'.Some? ==> cut'.value.index == old(index) && cut'.value.cache == old(Snap()).cache
      ensures cut'.Some? ==> cut'.value.loads == old(loads)
    {
      threw, cut', after' := LoadClip(url, env, my, cut, after);
      if threw || !StillValid(my) {
        return;
      }
      cut', after' := RunClip(env, my, cut', after');
    }

    /**
     * The first half of `playTransition`: `loadVideoSrc(url)` (point 1) and
     * `seekVideo(0)` (point 2), each of which may reject, each followed by a
     * `stillValid()` check.
     */
    method LoadClip(url: string, env: GoToEnv, my: nat, ghost cut: Option<Nav>, ghost after: seq<Interrupt>)
      returns (threw: bool, ghost cut': Option<Nav>, ghost after': seq<Interrupt>)
      requires Valid() && Tracks(my, cut, after) && cut.None?
      modifies this, textures
      ensures Valid() && Tracks(my, cut', after')
      ensures cut'.None? ==> threw == !(env.videoOk && env.seekOk)
      ensures cut'.None? ==> Snap() == old(Snap()).(clipUrl := url)
      ensures Quiet(env.during) ==> cut'.None?
      ensures cut'.Some? ==> cut'.value == old(Snap()).(clipUrl := url)
    {
      clipUrl := url;
      cut', after' := Await(At(env.during, 1), my, cut, after);
      if !env.videoOk {
        return true, cut', after';
      }
      if !StillValid(my) {
        return false, cut', after';
      }
      cut', after' := Await(At(env.during, 2), my, cut', after');
      threw := !env.seekOk;
    }

    /**
     * The second half: put the clip on the sphere, `play()` it (point 3; a
     * refusal returns quietly), wait for its end (point 4), check, and wait
     * for the camera steering (point 5).
     */
    method RunClip(env: GoToEnv, my: nat, ghost cut: Option<Nav>, ghost after: seq<Interrupt>)
      returns (ghost cut': Option<Nav>, ghost after': seq<Interrupt>)
      requires Valid() && Tracks(my, cut, after) && cut.None?
      modifies this, textures
      ensures Valid() && Tracks(my, cut', after')
      ensures cut'.None? ==> Snap() == old(Snap()).(shown := Clip)
      ensures Quiet(env.during) ==> cut'.None?
      ensures cut'.Some? ==> cut'.value == old(Snap()).(shown := Clip)
    {
      shown := Clip;
      cut', after' := Await(At(env.during, 3), my, cut, after);
      if !env.playStarts {
        return;
      }
      cut', after' := Await(At(env.during, 4), my, cut', after');
      if !StillValid(my) {
        return;
      }
      cut', after' := Await(At(env.during, 5), my, cut', after');
    }

    /**
     * A transition that ended because another operation invalidated its
     * token: the current state is what the operations in `run.after` made of
     * the state at the cut, so the transition wrote nothing after it.
     */
    ghost predicate Yielded(run: Run, my: nat)
      reads this, textures
    {
      run.Cancelled? && Tracks(my, Some(run.cut), run.after)
    }

    /**
     * What a `goTo(t)` started in state `s0` leaves behind: once completed,
     * the state `GoToF` computes; undisturbed, it completes; cancelled, it
     * yielded to the operations that cut its token, at its start node or its
     * destination, with its destination load outstanding only when that load
     * was a miss that succeeds.
     */
    ghost predicate GoToOutcome(s0: Nav, t: int, env: GoToEnv, run: Run)
      reads this, textures
    {
      && WellFormed(s0)
      && (run == Completed ==>
            Snap() == GoToF(s0, t, TransitionUrl(s0.index, t), env.videoOk, env.seekOk, env.destLoad, env.destFirst, env.fallbackLoad))
      && (Quiet(env.during) ==> run == Completed)
      && (run.Cancelled? ==>
            && Yielded(run, s0.token)
            && (run.cut.index == s0.index || run.cut.index == t)
            && (run.lateStore ==> env.destLoad == LoadOk && 0 <= t < |s0.cache| && s0.cache[t].None?))
    }

    /** `ensurePanoLoaded(t)` up to its first `await`: a miss issues the load. */
    method IssueLoad(t: int)
      requires Valid() && 0 <= t < |panos|
      modifies this`loads
      ensures Valid() && Snap() == Issue(old(Snap()), t)
    {
      if textures[t].None? {
        loads := loads + [panos[t]];
      }
    }

    /** The destination load settles: a miss that loads fills its slot. */
    method SettleLoad(t: int, cached: bool, dest: LoadOutcome)
      requires Valid() && 0 <= t < |panos|
      modifies textures
      ensures Valid() && Snap() == Settle(old(Snap()), t, cached, dest)
    {
      if !cached && dest == LoadOk {
        StoreTexture(t);
      }
    }

    /**
     * `goTo(t)`. It refuses a target that is not an adjacent node of the tour
     * while pano mode is idle, and then changes nothing. Run undisturbed, it
     * ends as `GoToF` says; run with an operation at some suspension point, it
     * either completes as that function says or yields: once its token is
     * stale it writes nothing more, and the state is exactly what the
     * interrupting operations made of the state they found.
     */
    method GoTo(t: int, env: GoToEnv) returns (ghost run: Run)
      requires Valid()
      modifies this, textures
      ensures Valid()
      ensures !GoToAccepts(old(mode), old(isTransitioning), old(index), t, |panos|) ==>
        run == Completed && Snap() == old(Snap())
      ensures GoToOutcome(old(Snap()), t, env, run)
    {
      if !(mode == Pano && !isTransitioning && t != index && 0 <= t < |panos| && (t - index == 1 || index - t == 1)) {
        return Completed;
      }
      run := Transition(t, env);
    }

    /**
     * `goTo(t)` past its guard: claim the flag, turn (point 0), issue the
     * destination load, play the clip, and either arrive or fall back.
     */
    method Transition(t: int, env: GoToEnv) returns (ghost run: Run)
      requires Valid() && GoToAccepts(mode, isTransitioning, index, t, |panos|)
      modifies this, textures
      ensures Valid() && GoToOutcome(old(Snap()), t, env, run)
    {
      ghost var s0 := Snap();
      var from, my := index, cancelToken;
      isTransitioning, uiEnabled := true, false;
      ghost var s1 := Snap();
      ghost var cut: Option<Nav>, after: seq<Interrupt> := None, [];
      cut, after := Await(At(env.during, 0), my, cut, after);
      if !StillValid(my) {
        return Cancelled(cut.value, after, false);
      }
      var cached := textures[t].Some?;
      IssueLoad(t);
      var threw;
      threw, cut, after := PlayTransition(TransitionUrl(from, t), env, my, cut, after);
      run := AfterClip(t, cached, threw, env, my, cut, after);
    }

    /**
     * `goTo` once the clip has played or thrown: a throw goes to the `catch`;
     * otherwise, if still valid, wait for the destination and arrive.
     */
    method AfterClip(t: int, cached: bool, threw: bool, env: GoToEnv, my: nat, ghost cut: Option<Nav>, ghost after: seq<Interrupt>)
      returns (ghost run: Run)
      requires Valid() && Tracks(my, cut, after) && 0 <= t < |panos|
      requires cut.None? ==> cached == textures[t].Some?
      modifies this, textures
      ensures Valid()
      ensures run == Completed ==>
        && cut.None?
        && Snap() == AfterClipF(old(Snap()), t, cached, threw, env.destLoad, env.destFirst, env.fallbackLoad)
      ensures cut.None? && Quiet(env.during) ==> run == Completed
      ensures run.Cancelled? ==>
        && Yielded(run, my)
        && (cut.Some? ==> run.cut == cut.value)
        && (cut.None? ==> run.cut.index == old(index) || run.cut.index == t)
        && (run.lateStore ==> !cached && env.destLoad == LoadOk)
    {
      var outstanding := !cached && env.destLoad == LoadOk;
      if threw {
        run := Catch(t, outstanding, env.destFirst, env, my, cut, after);
        return;
      }
      if !StillValid(my) {
        return Cancelled(cut.value, after, outstanding);
      }
      run := Arrive(t, cached, env, my, cut, after);
    }

    /**
     * After a clip that played: the destination load settles (point 6), a
     * failure goes to the fallback, otherwise show node `t`, turn (point 7)
     * and release the UI.
     */
    method Arrive(t: int, cached: bool, env: GoToEnv, my: nat, ghost cut: Option<Nav>, ghost after: seq<Interrupt>)
      returns (ghost run: Run)
      requires Valid() && Tracks(my, cut, after) && cut.None? && 0 <= t < |panos|
      requires cached == textures[t].Some?
      modifies this, textures
      ensures Valid()
      ensures run == Completed ==>
        Snap() == if cached || env.destLoad == LoadOk
                  then PanoUIActive(Commit(Settle(old(Snap()), t, cached, env.destLoad), t))
                  else Fallback(old(Snap()), t, env.fallbackLoad)
      ensures Quiet(env.during) ==> run == Completed
      ensures run.Cancelled? ==> Yielded(run, my) && (run.cut.index == old(index) || run.cut.index == t) && !run.lateStore
    {
      SettleLoad(t, cached, env.destLoad);
      ghost var cut', after' := Await(At(env.during, 6), my, cut, after);
      if !cached && env.destLoad == LoadFails {
        run := Catch(t, false, false, env, my, cut', after');
        return;
      }
      if !StillValid(my) {
        return Cancelled(cut'.value, after', false);
      }
      Display(t, Tex(Texture(panos[t])));
      cut', after' := Await(At(env.during, 7), my, cut', after');
      if !StillValid(my) {
        return Cancelled(cut'.value, after', false);
      }
      EnsurePanoUIActive();
      run := Completed;
    }

    /**
     * `goTo`'s `catch`: if still valid, load `t` again and hard-cut to it.
     * An `outstanding` destination load fills its slot before the fallback
     * looks (`landedFirst`) or after it has settled.
     */
    method Catch(t: int, outstanding: bool, landedFirst: bool, env: GoToEnv, my: nat, ghost cut: Option<Nav>, ghost after: seq<Interrupt>)
      returns (ghost run: Run)
      requires Valid() && Tracks(my, cut, after) && 0 <= t < |panos|
      modifies this, textures
      ensures Valid()
      ensures run == Completed ==>
        cut.None? && Snap() == CatchF(old(Snap()), t, outstanding, landedFirst, env.fallbackLoad)
      ensures cut.None? && Quiet(env.during) ==> run == Completed
      ensures run.Cancelled? ==>
        && Yielded(run, my)
        && (cut.Some? ==> run.cut == cut.value && run.lateStore == outstanding)
        && (cut.None? ==> (run.cut.index == old(index) || run.cut.index == t) && run.lateStore == (outstanding && !landedFirst))
    {
      if !StillValid(my) {
        return Cancelled(cut.value, after, outstanding);
      }
      if outstanding && landedFirst {
        StoreTexture(t);
      }
      run := FallbackLoad(t, env, my, cut, after);
      if outstanding && !landedFirst {
        // The first load lands now; after a cut its store is the run's `lateStore`.
        if StillValid(my) {
          StoreTexture(t);
        } else {
          run := run.(lateStore := true);
        }
      }
    }

    /** The fallback proper: load `t` (point 8), then show it, or give up and release the UI. */
    method FallbackLoad(t: int, env: GoToEnv, my: nat, ghost cut: Option<Nav>, ghost after: seq<Interrupt>)
      returns (ghost run: Run)
      requires Valid() && Tracks(my, cut, after) && cut.None? && 0 <= t < |panos|
      modifies this, textures
      ensures Valid()
      ensures run == Completed ==> Snap() == Fallback(old(Snap()), t, env.fallbackLoad)
      ensures Quiet(env.during) ==> run == Completed
      ensures run.Cancelled? ==> Yielded(run, my) && (run.cut.index == old(index) || run.cut.index == t) && !run.lateStore
    {
      EnsureLoadedMemo(Snap(), t, env.fallbackLoad);
      var tex := EnsurePanoLoaded(t, env.fallbackLoad);
      ghost var cut', after' := Await(At(env.during, 8), my, cut, after);
      if !StillValid(my) {
        return Cancelled(cut'.value, after', false);
      }
      if tex.LoadError? {
        EnsurePanoUIActive();
        return Completed;
      }
      run := FallbackShow(t, env, my, cut', after');
    }

    /** The fallback's hard cut: show node `t`, turn (point 9), release the UI. */
    method FallbackShow(t: int, env: GoToEnv, my: nat, ghost cut: Option<Nav>, ghost after: seq<Interrupt>)
      returns (ghost run: Run)
      requires Valid() && Tracks(my, cut, after) && cut.None? && 0 <= t < |panos|
      modifies this, textures
      ensures Valid()
      ensures run == Completed ==> Snap() == PanoUIActive(Commit(old(Snap()), t))
      ensures Quiet(env.during) ==> run == Completed
      ensures run.Cancelled? ==> Yielded(run, my) && (run.cut.index == old(index) || run.cut.index == t) && !run.lateStore
    {
      Display(t, Tex(Texture(panos[t])));
      ghost var cut', after' := Await(At(env.during, 9), my, cut, after);
      if !StillValid(my) {
        return Cancelled(cut'.value, after', false);
      }
      EnsurePanoUIActive();
      run := Completed;
    }

    // -------------------------------------------------------------------------
    // The restart, the buttons, the pano tab and the listing messages
    // -------------------------------------------------------------------------

    /**
     * `restartTourFromFirstNodeWithFade`, with the `stillValid()` checks that
     * `goTo` makes (see `RestartAsWrittenF` for the code as written): fade to
     * black (point 0), load node 0 (point 1), show it, fade in (point 2).
     */
    method RestartTour(env: RestartEnv)
      requires Valid()
      modifies this, textures
      ensures Valid()
      ensures Snap() == RestartF(old(Snap()), At(env.during, 0), At(env.during, 1), At(env.during, 2), env.load)
    {
      if !(mode == Pano && !isTransitioning && |panos| > 0) {
        return;
      }
      var my := cancelToken;
      isTransitioning, uiEnabled := true, false;
      Interleave(At(env.during, 0));
      if !StillValid(my) {
        return;
      }
      RestartTail(my, env);
    }

    /** The restart after its fade to black. */
    method RestartTail(my: nat, env: RestartEnv)
      requires Valid() && |panos| > 0
      modifies this, textures
      ensures Valid() && Snap() == RestartTailF(old(Snap()), my, At(env.during, 1), At(env.during, 2), env.load)
    {
      EnsureLoadedMemo(Snap().(shown := Blank), 0, env.load);
      var tex := BlankAndLoadFirst(At(env.during, 1), env.load);
      FadeIn(my, tex, At(env.during, 2));
    }

    /** Blank the sphere and load node 0, with `ev` running while that load is awaited (point 1). */
    method BlankAndLoadFirst(ev: Interrupt, load: LoadOutcome) returns (tex: Loaded)
      requires Valid() && |panos| > 0
      modifies this, textures
      ensures Valid()
      ensures Snap() == InterruptF(EnsureLoaded(old(Snap()).(shown := Blank), 0, load).0, ev)
      ensures tex == EnsureLoaded(old(Snap()).(shown := Blank), 0, load).1
    {
      shown := Blank;
      tex := EnsurePanoLoaded(0, load);
      Interleave(ev);
    }

    /** Node 0 loaded (or not): show it if still valid, fade in (point 2), release the UI if still valid. */
    method FadeIn(my: nat, tex: Loaded, ev: Interrupt)
      requires Valid() && |panos| > 0
      requires tex.LoadError? || tex == Tex(Texture(panos[0]))
      modifies this, textures
      ensures Valid()
      ensures Snap() == if tex.LoadError? || !NavSpec.StillValid(old(Snap()), my) then Clear(old(Snap()), my)
                        else Clear(InterruptF(Commit(old(Snap()), 0), ev), my)
    {
      if tex.LoadError? || !StillValid(my) {
        ClearIfValid(my);
        return;
      }
      Display(0, tex);
      Interleave(ev);
      ClearIfValid(my);
    }

    /** The restart's `finally`, guarded by the token. */
    method ClearIfValid(my: nat)
      requires Valid()
      modifies this`uiEnabled, this`isTransitioning
      ensures Valid() && Snap() == Clear(old(Snap()), my)
    {
      if StillValid(my) {
        EnsurePanoUIActive();
      }
    }

    /**
     * `restartTourFromFirstNodeWithFade` as written: fade to black (point 0),
     * load node 0 (point 1), show it, fade in (point 2), with no token check.
     */
    method RestartTourAsWritten(env: RestartEnv)
      requires Valid()
      modifies this, textures
      ensures Valid()
      ensures Snap() == RestartAsWrittenF(old(Snap()), At(env.during, 0), At(env.during, 1), At(env.during, 2), env.load)
    {
      if !(mode == Pano && !isTransitioning && |panos| > 0) {
        return;
      }
      isTransitioning, uiEnabled := true, false;
      Interleave(At(env.during, 0));
      RestartTailAsWritten(env);
    }

    /** The restart as written after its fade to black. */
    method RestartTailAsWritten(env: RestartEnv)
      requires Valid() && |panos| > 0
      modifies this, textures
      ensures Valid() && Snap() == RestartAsWrittenTailF(old(Snap()), At(env.during, 1), At(env.during, 2), env.load)
    {
      EnsureLoadedMemo(Snap().(shown := Blank), 0, env.load);
      var tex := BlankAndLoadFirst(At(env.during, 1), env.load);
      if !tex.LoadError? {
        Display(0, tex);
        Interleave(At(env.during, 2));
      }
      ClearTransition();
    }

    /** The restart's `finally` as written: clear the flag, enable input in pano. */
    method ClearTransition()
      requires Valid()
      modifies this`uiEnabled, this`isTransitioning
      ensures Valid() && Snap() == ClearAsWritten(old(Snap()))
    {
      isTransitioning := false;
      if mode == Pano {
        uiEnabled := true;
      }
    }

    /** The forward button: past the last node it restarts the tour (as written), otherwise it moves one node on. */
    method Forward(restart: RestartEnv, env: GoToEnv) returns (ghost run: Run)
      requires Valid()
      modifies this, textures
      ensures Valid()
      ensures old(index) + 1 >= |panos| ==>
        run == Completed &&
        Snap() == RestartAsWrittenF(old(Snap()), At(restart.during, 0), At(restart.during, 1), At(restart.during, 2), restart.load)
      ensures old(index) + 1 < |panos| ==> GoToOutcome(old(Snap()), old(index) + 1, env, run)
    {
      if index + 1 >= |panos| {
        RestartTourAsWritten(restart);
        return Completed;
      }
      run := GoTo(index + 1, env);
    }

    /** The back button: one node back; at node 0 nothing happens. */
    method Back(env: GoToEnv) returns (ghost run: Run)
      requires Valid()
      modifies this, textures
      ensures Valid()
      ensures old(index) == 0 ==> run == Completed && Snap() == old(Snap())
      ensures GoToOutcome(old(Snap()), old(index) - 1, env, run)
    {
      run := GoTo(index - 1, env);
    }

    /**
     * Entering pano with a reload of the current node: cancel, `setMode`,
     * blank, reload, show and schedule the reveal.
     */
    method EnterPanoAndReload(restore: LoadOutcome, load: LoadOutcome)
      requires Valid()
      modifies this, textures
      ensures Valid() && Snap() == PanoEntryF(old(Snap()), restore, load)
    {
      EnterPano(restore);
      var tex := EnsurePanoLoaded(index, load);
      if tex.LoadError? {
        return;
      }
      shown := ShownOf(tex);
      ScheduleReveal(Pano);
    }

    /** The pano tab; its cancel runs outside pano mode and so restores nothing. */
    method OnTabPano(load: LoadOutcome)
      requires Valid()
      modifies this, textures
      ensures Valid() && Snap() == TabPanoF(old(Snap()), load)
    {
      if mode == Pano {
        return;
      }
      EnterPanoAndReload(LoadOk, load);
    }

    /**
     * `RTF_SET_MODE`: "pano" enters pano and reloads even when already in
     * pano, "dollhouse" clicks the dollhouse tab, anything else is ignored.
     */
    method HandleSetMode(m: string, restore: LoadOutcome, load: LoadOutcome)
      requires Valid()
      modifies this, textures
      ensures Valid()
      ensures m == "pano" ==> Snap() == PanoEntryF(old(Snap()), restore, load)
      ensures m == "dollhouse" ==> Snap() == EnterDollhouseF(old(Snap()), restore)
      ensures m != "pano" && m != "dollhouse" ==> Snap() == old(Snap())
    {
      if m == "pano" {
        EnterPanoAndReload(restore, load);
      } else if m == "dollhouse" {
        EnterDollhouse(restore);
      }
    }

    /**
     * `RTF_GOTO_NODE`: decode the target, then ignore, re-emit, animate an
     * adjacent move or hard-jump, as `Commands.GotoNodeAction` decides. It
     * decodes with whole numbers required; on messages that carry no
     * fraction it takes the branch the code as written takes.
     */
    method HandleGotoNode(msg: Commands.GotoNode, env: GoToEnv, restore: LoadOutcome, load: LoadOutcome)
      returns (ghost run: Run)
      requires Valid()
      modifies this, textures
      ensures Valid()
      ensures var a := Commands.GotoNodeAction(msg, |panos|, old(mode), old(index), old(isTransitioning));
        && (a == Commands.Ignore ==> run == Completed && Snap() == old(Snap()))
        && (a == Commands.ReEmit ==> run == Completed && Snap() == NavSpec.UpdateIndicator(old(Snap()), old(index)))
        && (a.HardJump? ==> run == Completed && Snap() == JumpF(old(Snap()), a.target, restore, load))
        && (a.Animate? ==> GoToOutcome(old(Snap()), a.target, env, run))
        && (run.Cancelled? ==> a.Animate?)
        && (Commands.WholeOrNotFinite(msg.panoIndex) && Commands.WholeOrNotFinite(msg.nodeId) ==>
              Commands.AsRaw(a) == Commands.GotoNodeActionAsWritten(msg, |panos|, old(mode), old(index), old(isTransitioning)))
    {
      if Commands.WholeOrNotFinite(msg.panoIndex) && Commands.WholeOrNotFinite(msg.nodeId) {
        Commands.GotoNodeActionAgreesOnWholeNumbers(msg, |panos|, mode, index, isTransitioning);
      }
      var a := Commands.GotoNodeAction(msg, |panos|, mode, index, isTransitioning);
      run := Completed;
      match a
      case Ignore =>
      case ReEmit => UpdateIndicator(index);
      case HardJump(i) => JumpToPano(i, restore, load);
      case Animate(i) => run := GoTo(i, env);
    }
  }
}
