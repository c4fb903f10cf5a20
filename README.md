# Pano viewer navigation core, modelled in Dafny

This project models the navigation core of a real-estate virtual-tour viewer
(`src/main.js`). The tour is a row of panoramas, PANOS. The viewer moves
between neighbouring nodes with an animated transition clip (`goTo`). It can
hard-jump to any node (`jumpToPano`) and restart from the first node with a
fade. Two modes, `pano` and `dollhouse`, share one set of module variables.
A listing page in the parent frame drives the viewer with
`RTF_GOTO_NODE` / `RTF_SET_MODE` messages and is told of every node change.

The asynchronous operations guard themselves with two epoch counters:

- `transitionCancelToken`: a transition captures it and re-checks
  `stillValid()` after every `await`.
- `__uiEpoch`: a scheduled UI reveal captures it and becomes a no-op after a
  mode switch.

The model makes this protocol checkable sequentially. Every `await` of
`goTo`, `playTransition` and the restart is a suspension point. At each one,
one other operation (`NavSpec.Interrupt`: a cancel, the dollhouse tab, a
hard jump, or an `RTF_SET_MODE` "pano" message) may run to completion. These
are the operations that end a transition in flight; the ones that leave it
running are listed under "Left out".

Modules:

- `Base`: `Option`, `Min`, `Max`.
- `Naming`: `pad`, the URL patterns, the transition paths, PANOS, the
  indicator text and the node id.
- `NavSpec`: the navigation state as a value (`Nav`). It holds one
  specification function per operation and the lemmas about them.
- `Navigation`: class `Viewer`. Its fields are the module variables and its
  texture cache is an array. Every method is proved to change the fields
  exactly as its `NavSpec` function says.
- `Commands`: decoding and dispatch of `RTF_GOTO_NODE`.
- `Dollhouse`: node-marker naming, `findNodeInEntry`, the model choice and
  the wipe choice. Class `Models` holds the model cache and the switcher's
  state.

A cancelled transition is described by a ghost `Run` value. `Cancelled`
records the state at the moment its token was cut and the operations that
ran after that. `Viewer.Yielded` then states that the current state is
exactly what those operations made of the cut state: the transition wrote
nothing after its token went stale.

## Model

| member | source | states |
|---|---|---|
| Naming.DigitsRoundTrip | src/main.js:605-607 | `String(n)` read back as decimal digits gives `n` |
| Naming.LeadingZeros | src/main.js:605-607 | zeros prefixed by `padStart` do not change the number the digits spell |
| Naming.Pad | src/main.js:605-607 | `pad(n, len)` is `String(n)` left-padded with `'0'` to at least `len` characters, and is never truncated |
| Naming.PadRoundTrip | src/main.js:605-607 | a padded non-negative number is all digits and reads back as `n` |
| Naming.PadHasNoBrace | src/main.js:605-607 | a padded number never contains `{`, so a filled placeholder cannot be matched again |
| Naming.PadFourWide | src/main.js:613-615 | numbers up to 9999 pad to exactly four characters |
| Naming.PadInjective | src/main.js:605-607 | two numbers padded to the same width are equal only if the numbers are |
| Naming.DigitsLength | src/main.js:605-607 | a number below 10^k has at most k digits |
| Naming.FindFrom | src/main.js:613-622 | the first occurrence of the placeholder at or after a position, or none |
| Naming.ReplaceFirst | src/main.js:613-622 | `String.replace` with a string pattern: unchanged when the pattern does not occur |
| Naming.ReplaceFirstAt | src/main.js:613-622 | only the first occurrence is replaced, and the text around it is kept |
| Naming.PanoPatternFill | src/main.js:613-615 | `applyPanoPattern` puts `pad(i1, 4)` in place of the first `{0000}` |
| Naming.TransitionPatternFill | src/main.js:617-622 | `applyTransitionPattern` fills the first `{00}` with `pad(a, 2)` and the next with `pad(b, 2)` |
| Naming.ForwardPathNames | src/main.js:1619-1623 | the forward clip from node `i` is named by `(i+1, i+2)` |
| Naming.ReversePathNames | src/main.js:1624-1628 | the reverse clip from node `i` is named by `(i+1, i)` |
| Naming.BuildPanos | src/main.js:3577 | PANOS has one URL per configured node |
| Naming.PanoUrlAt | src/main.js:3577 | PANOS[i] is the base followed by the pattern with `pad(i+1, 4)` filled in |
| Naming.PanoUrlsDistinct | src/main.js:3577 | with one `{0000}` placeholder, distinct nodes get distinct URLs |
| Naming.IndicatorReadsBack | src/main.js:1189-1190 | the indicator `"NN / MM"` reads back as the 1-based node and the node count |
| Naming.IndicatorParts | src/main.js:1189-1190 | the indicator is `pad2(i+1)`, then `" / "`, then `pad2(count)` |
| Naming.Pad2Reads | src/main.js:609-611 | `pad2(n)` for `n < 100` is two digits that read back as `n` |
| Naming.NodeIdForIndex | src/main.js:183-187 | the 1-based node id for a non-negative index, 0 for a negative one |
| NavSpec.EnsureLoadedMemo | src/main.js:1603-1613 | out of range: null and no change; hit: the stored texture, no load; miss: exactly one load of that slot's URL; on success only that slot is filled |
| NavSpec.CancelF | src/main.js:1572-1601 | the token goes up by one, the flag is cleared, and in pano mode input is re-enabled and the sphere shows the current node (black if its load fails); the index, mode and other cache slots are kept |
| NavSpec.RestoreF | src/main.js:1585-1598 | the cancel's pano-mode restore shows the current node's texture when it is cached or its load succeeds, black otherwise, and enables input; only the cache, the loads, the sphere and input change |
| NavSpec.CancelLeavingF | src/main.js:1572-1598 | the cancel `setMode` starts on leaving pano, not awaited: the token goes up by one and the flag is cleared; its restore settles after the switch, so the node's texture is shown and input ends enabled unless the restore was a miss whose load fails (the `catch` then sees a mode other than pano and leaves the sphere and input as they were) |
| NavSpec.RestoreLeavingF | src/main.js:1585-1598 | that restore: only the cache, the loads, the sphere and input change; a texture is shown when it is had, and a rejected load leaves the sphere and input as they were |
| NavSpec.SetModeF | src/main.js:1221-1276 | the UI epoch always advances, so every pending reveal is stale, and the queue is kept; leaving pano mid-transition cancels it (without awaiting the cancel); entering pano leaves no transition in flight, enables input and re-posts the current node |
| NavSpec.EnterDollhouseF | src/main.js:3211-3250 | the dollhouse tab ends in dollhouse mode; a pano transition in flight loses its token; a second click changes nothing |
| NavSpec.EnterPanoF | src/main.js:1849-1859 | cancel, then `setMode("pano")`, then blank: pano mode, idle, input on, current index kept, new UI epoch |
| NavSpec.JumpF | src/main.js:1849-1876 | `jumpToPano` ends in pano mode with no transition in flight, and cuts the token of one in flight |
| NavSpec.ShowNode | src/main.js:1861-1875 | commits node `j`, shows what its load settled with, and posts `(j, j+1)` for a non-negative `j` |
| NavSpec.ScheduleReveal | src/main.js:257-283 | a reveal is queued, stamped with the current UI epoch; nothing else changes |
| NavSpec.InterruptF | src/main.js:1572-1576 | no interrupting operation lowers the token or the UI epoch, drops a queued reveal or starts a transition; each one that finds a pano transition in flight cuts its token and ends it |
| NavSpec.RunInterruptsMonotone | src/main.js:1572-1576 | over any number of interrupts, a stale token stays stale, an idle state stays idle, the UI epoch never goes back and every queued reveal keeps its place |
| NavSpec.FireRevealF | src/main.js:233-246 | a fired reveal leaves the queue |
| NavSpec.StaleRevealIsInert | src/main.js:224-283 | any reveal scheduled before `setMode`, whatever operations run after the switch, is still queued and does nothing but leave the queue when its timer fires |
| NavSpec.Fallback | src/main.js:1760-1785 | goTo's catch: with the texture it hard-cuts to `t` (index, sphere, indicator, one post); without it only the flag is cleared and input enabled |
| NavSpec.CatchF | src/main.js:1739-1764 | goTo's catch after the clip threw: an outstanding destination load that landed first is reused; one still in flight makes the fallback load again, and it fills the slot after the fallback |
| NavSpec.GoToF | src/main.js:1712-1786 | `goTo(t)` run undisturbed keeps PANOS and leaves every cached slot holding its own URL's texture |
| NavSpec.GoToRejects | src/main.js:1712-1717 | `goTo(t)` changes nothing outside pano, mid-transition, at the current node, out of range or for a non-neighbour |
| NavSpec.GoToArrives | src/main.js:1712-1786 | an accepted, undisturbed `goTo(t)` that obtains the texture in time (cached; the first load, when the clip played or that load landed before the clip failed; or the fallback load) ends at `t`, idle, input on, token unchanged, texture shown and cached, one post |
| NavSpec.FallbackArrives | src/main.js:1763-1773 | a fallback that has the texture ends at `t`, idle, input on, token, mode, epoch and reveal queue unchanged, one post |
| NavSpec.GoToStrands | src/main.js:1760-1785 | when both loads fail, `goTo` stays put but releases the flag and input, posts nothing, and has loaded the destination twice |
| NavSpec.GoToLoads | src/main.js:1739-1764 | an undisturbed `goTo` loads the destination once on a miss, and a second time exactly when the first load failed or the clip failed before the first load had landed; never on a hit |
| NavSpec.GoToRacesClipFailure | src/main.js:1739-1764 | when the clip fails before a successful first load has landed, the destination is fetched twice and ends cached; if the second load fails `goTo` stays at its node, idle, with nothing posted |
| NavSpec.GoToPlaysClip | src/main.js:1742-1743 | the clip URL is loaded whenever the guard passes |
| NavSpec.RestartAsWrittenF | src/main.js:1788-1832 | the restart as written, which never re-checks the token after its awaits; PANOS is untouched and the state stays well formed |
| NavSpec.RestartAsWrittenOverridesJump | src/main.js:1788-1832 | as written, a jump to `j` during the first fade is overwritten by node 0 |
| NavSpec.RestartF | src/main.js:1788-1832 | the restart with a `stillValid()` check after each await, as `goTo` has; PANOS is untouched and the state stays well formed |
| NavSpec.RestartYieldsDuringFadeOut | src/main.js:1805 | the corrected restart interrupted during its fade out ends in exactly the state that operation left |
| NavSpec.RestartYieldsDuringLoad | src/main.js:1809 | the same while node 0 is loading |
| NavSpec.RestartYieldsDuringFadeIn | src/main.js:1823 | the same during the fade back in |
| NavSpec.RestartQuiet | src/main.js:1788-1832 | undisturbed, both restarts agree: node 0 (if its texture is had), idle, input on, one post; with a failed load the index is kept |
| NavSpec.JumpLands | src/main.js:1849-1876 | `jumpToPano(j)` lands on `j` (unchecked against the count): in range with the texture, `j` shows; out of range the sphere stays black; a failed miss keeps the old index |
| NavSpec.PanoEntryF | src/main.js:546-555 | entering pano with a reload of the current node ends in pano mode, PANOS untouched |
| NavSpec.PanoEntryShowsCurrent | src/main.js:1279-1296 | entering pano keeps the node, leaves no transition, enables input and stales every earlier reveal; the reloaded node shows with a fresh reveal queued |
| NavSpec.TabPanoIdempotent | src/main.js:1281 | a second click on the pano tab changes nothing |
| Navigation.Viewer.constructor | src/main.js:3560-3581 | init: pano mode at node 0, epoch 1, node 0 posted, input off, PANOS built, an empty texture slot per node |
| Navigation.Viewer.StoreTexture | src/main.js:1610 | fills slot `i` with its own texture |
| Navigation.Viewer.EnsurePanoLoaded | src/main.js:1603-1613 | the memo table in place, as `EnsureLoaded` |
| Navigation.Viewer.EmitChange | src/main.js:467-470 | posts `(i, i+1, mode)` for a non-negative index |
| Navigation.Viewer.UpdateIndicator | src/main.js:1189-1198 | sets the indicator text and posts the node change |
| Navigation.Viewer.CancelActivePanoTransition | src/main.js:1572-1601 | changes the fields as `CancelF` |
| Navigation.Viewer.RestoreCurrentPano | src/main.js:1585-1598 | changes the fields as `RestoreF` |
| Navigation.Viewer.SetMode | src/main.js:1221-1276 | changes the fields as `SetModeF` |
| Navigation.Viewer.CancelLeavingPano | src/main.js:1224-1227 | changes the fields as `CancelLeavingF` |
| Navigation.Viewer.RestoreAfterLeaving | src/main.js:1585-1598 | changes the fields as `RestoreLeavingF` |
| Navigation.Viewer.SwitchMode | src/main.js:1229-1275 | changes the fields as `SwitchModeF` |
| Navigation.Viewer.EnsurePanoUIActive | src/main.js:1209-1219 | input enabled, flag cleared |
| Navigation.Viewer.EnterDollhouse | src/main.js:3211-3250 | changes the fields as `EnterDollhouseF` |
| Navigation.Viewer.EnterPano | src/main.js:1849-1859 | changes the fields as `EnterPanoF` |
| Navigation.Viewer.JumpToPano | src/main.js:1849-1876 | changes the fields as `JumpF` |
| Navigation.Viewer.ShowNode | src/main.js:1861-1875 | changes the fields as `NavSpec.ShowNode` |
| Navigation.Viewer.Display | src/main.js:1862-1865 | sphere, index, indicator and post, as `NavSpec.Display` |
| Navigation.Viewer.ScheduleReveal | src/main.js:257-283 | queues a reveal stamped with the current epoch |
| Navigation.Viewer.FireReveal | src/main.js:242-249 | changes the fields as `FireRevealF` |
| Navigation.Viewer.Interleave | src/main.js:1572-1601 | runs one interrupting operation (a cancel, the dollhouse tab, a hard jump or an `RTF_SET_MODE` "pano" entry) as `InterruptF` |
| Navigation.Viewer.ValidUntilCut | src/main.js:1722-1723 | while tracked, `stillValid()` holds exactly until the token is cut |
| Navigation.Viewer.Await | src/main.js:1737-1738 | one suspension: the interrupt runs; once the token is cut, the state is the cut state followed by the interrupts since |
| Navigation.Viewer.PlayTransition | src/main.js:1630-1707 | loads and seeks the clip, reports whether either threw, and shows the clip; it writes nothing once its token is stale |
| Navigation.Viewer.LoadClip | src/main.js:1634-1638 | the clip source and the seek |
| Navigation.Viewer.RunClip | src/main.js:1640-1706 | the clip on the sphere, `play()`, its end, the steering |
| Navigation.Viewer.IssueLoad | src/main.js:1740 | a destination miss issues its load before the clip plays |
| Navigation.Viewer.SettleLoad | src/main.js:1747 | a destination miss that loads fills its slot |
| Navigation.Viewer.GoTo | src/main.js:1712-1786 | refused: changes nothing; completed: as `GoToF`; undisturbed: completes; cancelled: yields to the interrupting operations, its destination load the only late write |
| Navigation.Viewer.Transition | src/main.js:1719-1786 | `goTo` past its guard, with the same outcome |
| Navigation.Viewer.AfterClip | src/main.js:1744-1786 | after the clip: the `catch` when it threw, else (if still valid) the settle and the arrival, as `AfterClipF`; cancelled, it yields |
| Navigation.Viewer.Arrive | src/main.js:1745-1785 | the arrival at `t` as `Commit` after the settle, or the fallback |
| Navigation.Viewer.Catch | src/main.js:1739-1764 | a still-valid catch falls back as `CatchF`: an outstanding destination load is stored before the fallback when it landed first, after it otherwise (or, once the token is cut, reported as the run's late store) |
| Navigation.Viewer.FallbackLoad | src/main.js:1763-1785 | the fallback as `Fallback` |
| Navigation.Viewer.FallbackShow | src/main.js:1766-1773 | the fallback's hard cut to `t` |
| Navigation.Viewer.RestartTour | src/main.js:1788-1832 | the corrected restart, as `RestartF` |
| Navigation.Viewer.RestartTail | src/main.js:1808-1831 | the restart after its fade to black, as `RestartTailF` |
| Navigation.Viewer.BlankAndLoadFirst | src/main.js:1808-1809 | blanks the sphere and loads node 0 |
| Navigation.Viewer.FadeIn | src/main.js:1810-1831 | shows node 0 if still valid, fades in, and releases the UI if still valid |
| Navigation.Viewer.ClearIfValid | src/main.js:1828-1831 | the restart's `finally`, guarded by the token |
| Navigation.Viewer.RestartTourAsWritten | src/main.js:1788-1832 | the restart as written, as `RestartAsWrittenF`: no token check after any await |
| Navigation.Viewer.RestartTailAsWritten | src/main.js:1808-1831 | the restart as written after its fade to black, as `RestartAsWrittenTailF` |
| Navigation.Viewer.ClearTransition | src/main.js:1828-1831 | the restart's `finally` as written: flag cleared, input enabled in pano |
| Navigation.Viewer.Forward | src/main.js:1834-1843 | past the last node: the restart as written (`RestartAsWrittenF`); otherwise `goTo(index + 1)` with its outcome |
| Navigation.Viewer.Back | src/main.js:1844 | `goTo(index - 1)`; at node 0 nothing changes |
| Navigation.Viewer.EnterPanoAndReload | src/main.js:546-555 | changes the fields as `PanoEntryF` |
| Navigation.Viewer.OnTabPano | src/main.js:1279-1296 | changes the fields as `TabPanoF` |
| Navigation.Viewer.HandleSetMode | src/main.js:546-563 | "pano" enters pano and reloads; "dollhouse" acts as the dollhouse tab; anything else is ignored |
| Navigation.Viewer.HandleGotoNode | src/main.js:566-596 | with the corrected decoder (whole targets only): per action, nothing, a re-emit, a hard jump, or `goTo` with its outcome; only the animated move can be cancelled; on messages without a fraction it takes the branch the code as written takes |
| Commands.CoerceTargetIndexAsWritten | src/main.js:525-533 | `__coerceTargetIndex` as written: `panoIndex` if finite and >= 0, else `nodeId - 1` if `nodeId > 0`; no whole-number check |
| Commands.FractionalTargetSurvives | src/main.js:525-572 | `panoIndex: 1.5` passes both the coercion and the clamp unchanged |
| Commands.CoerceTargetIndex | src/main.js:525-533 | the corrected coercion yields only non-negative whole targets |
| Commands.CoerceAgreesOnWholeNumbers | src/main.js:525-533 | on whole-number fields the corrected coercion agrees with the code as written |
| Commands.CoerceRoundTrip | src/main.js:525-533 | `panoIndex` wins when usable, and a posted node id decodes back to its index |
| Commands.ClampTarget | src/main.js:570-572 | the clamp into `[0, count - 1]`, skipped while PANOS is empty |
| Commands.GotoNodeActionSound | src/main.js:566-596 | for the corrected decoder: ignored exactly when no target decodes; animated only when `goTo` accepts; jumps always land in range; re-emits only in pano mode |
| Commands.GotoNodeActionAsWrittenSound | src/main.js:566-596 | the dispatch as written: ignored exactly when no target decodes; an animated move always has a whole neighbouring target that `goTo` accepts, so only a hard jump can carry a fraction; jumps land between the first and last node |
| Commands.GotoNodeActionAgreesOnWholeNumbers | src/main.js:566-596 | on fields without a fraction the dispatch as written and the corrected one take the same branch with the same target |
| Commands.FractionalTargetJumps | src/main.js:566-596 | `panoIndex: 1.5` at node 0 is a hard jump to 1.5 as written, and ignored by the corrected decoder |
| Commands.NodeFiveFromTenJumps | src/main.js:566-596 | `nodeId 5` at node 10 is a hard jump to index 4 |
| Dollhouse.Upper | src/main.js:2452 | `toUpperCase` (ASCII): same length, no lower-case letter left, each lower-case letter becomes the capital at the same place in the alphabet, every other character unchanged |
| Dollhouse.MatchNode | src/main.js:2455 | `^NODE_(\d+)$`: the captured digits exactly when the whole name matches |
| Dollhouse.NodesOf | src/main.js:2448-2490 | every marker refers to an object of the traversal |
| Dollhouse.NodesOfExact | src/main.js:2450-2462 | a marker is exactly a mesh named `NODE_n` in any case, with pano index `n - 1` |
| Dollhouse.NodesOfOrdered | src/main.js:2449-2487 | markers come in visiting order, at most one per object |
| Dollhouse.NodeNameRoundTrip | src/main.js:2455-2462 | `NODE_<pad(i+1)>` and `node_<pad(i+1)>` stand for pano `i` |
| Dollhouse.NearMissNames | src/main.js:2455 | names with anything around the pattern are not markers |
| Dollhouse.ExtractNodes | src/main.js:2448-2490 | the traversal loop collects exactly `NodesOf` |
| Dollhouse.FirstMarkerFrom | src/main.js:3102 | `Array.find`: the first marker of the pano at or after a position |
| Dollhouse.FindNodeInEntry | src/main.js:3100-3103 | null without an entry or markers; otherwise a marker of the pano, or null when there is none |
| Dollhouse.FindNodeIsFirst | src/main.js:3102 | the marker found is the first of its pano |
| Dollhouse.DollUrlForKey | src/main.js:2492-2496 | one of the three configured URLs |
| Dollhouse.DollUrlsDistinct | src/main.js:2492-2496 | three distinct files give three distinct keys their own file |
| Dollhouse.BestKeyPrefers | src/main.js:2300-2307 | up wins, then down, then full; if any model has the node, the chosen one has it |
| Dollhouse.WipeFollowsRank | src/main.js:3141-3175 | a switch to a higher floor wipes up and to a lower one wipes down, when another model was showing; otherwise a bottom-up wipe in the dollhouse and none outside it |
| Dollhouse.Models.constructor | src/main.js:2062-2069 | nothing loaded, lower floor selected, reference not ready, not switching (the flag declared at 3121) |
| Dollhouse.Models.LoadDollModel | src/main.js:2812-2849 | hit: the cached root and no load; miss: one load of the key's URL, cached with its markers on success; old entries unchanged (`Grows`) |
| Dollhouse.Models.ChooseBestDollKeyForPano | src/main.js:2294-2308 | loads down, up and full (failures ignored) and returns `BestKey` of the cache; each newly cached model holds the markers its file yields, so a pano with a marker in a freshly loaded upper floor picks the upper floor |
| Dollhouse.Models.LoadAllDollModels | src/main.js:2296-2298 | the three loads: the cache gains exactly the models whose files load, each with its file's markers, and keeps its old entries |
| Dollhouse.Models.EnsureReferenceReady | src/main.js:2851-2865 | the full model is loaded at most once as the reference; fails only when it cannot be loaded; the only new entry is the whole house, with its file's markers |
| Dollhouse.Models.SwitchDollhouseModel | src/main.js:3123-3182 | no-op while switching or for the model showing; `switching` always cleared; on success the model and its wipe; on failure the highlight restored; past the guard the reference is ready exactly when the whole house is cached or loads; only the whole house and the requested model are newly cached, each with its file's markers |
| Dollhouse.Models.FinishSwitch | src/main.js:3134-3181 | the switch after its guard, on every path clearing `switching`; the reference readiness and the new cache entries as in `SwitchDollhouseModel` |
| Dollhouse.Models.ShowModel | src/main.js:3137-3175 | the requested model becomes active with its wipe |
| Dollhouse.Models.LoadForSwitch | src/main.js:3135-3137 | succeeds exactly when the reference and the requested model can be had; the reference is then ready; only the whole house and the requested model are newly cached, with their files' markers |
| Dollhouse.Models.SwallowClicks | src/main.js:3124 | clicks during a switch change nothing |
| Dollhouse.Models.OnModelButton | src/main.js:3184-3202 | a click on the highlighted button, or during a switch, changes nothing |

## Left out

- Camera and orientation maths are not modelled: yaw, pitch, hero views, easing, the fades, the wipes' animation and the orbit controls. Each `await` on them is only a suspension point.
- Progress bars, the loading overlay, room labels and other DOM styling are not modelled.
- Media and loaders are abstract. A pano load of URL `u` either yields `Texture(u)` or rejects, as a parameter says. The same holds for the clip's `loadVideoSrc`/`seekVideo`/`play()` and for a glTF load, which yields the objects its traversal visits. The shortcut in `loadVideoSrc` for an already-loaded source is not modelled.
- Timers are not modelled. The 15 s watchdog is one of the operations (`Cancel`) that may run at a suspension point. `requestAnimationFrame` and `setTimeout` delays become the reveal queue.
- Interleavings are simplified. One operation runs to completion at each suspension point; operations that themselves suspend and interleave with each other are not modelled. A destination load's store happens before the operation at the same suspension point. When the clip fails before that load has landed, its store is placed after the fallback has settled.
- NavSpec.InterruptF: only operations that end a transition in flight run at a suspension point (a cancel, the dollhouse tab, a hard jump, `RTF_SET_MODE` "pano"). Operations that leave it running are not modelled there: an `RTF_GOTO_NODE` for the current node (its `updateIndicator` re-emit, src/main.js:583-585) and a UI reveal's timer firing. With them a completed `goTo` would also carry their extra node change or control visibility.
- Navigation.Viewer.GoTo: its outcome (and that of `Transition`, `Forward`, `Back` and `HandleGotoNode`) is stated only for the interleavings `NavSpec.InterruptF` covers, as in the line above.
- NavSpec.CancelF: a cancel that is not awaited (the watchdog, `RTF_SET_MODE` "pano", the pano tab) runs to completion at once. Its restore load is not overlapped with the loads that follow it; only the one that `setMode` starts on leaving pano settles after the mode switch (`CancelLeavingF`).
- `preloadNearby` and its background loads of the neighbouring nodes are not modelled.
- The caches are not single-flight. The model issues one load per miss and never merges two loads in flight. Concurrent misses of the same slot are modelled only for `goTo`'s fallback (`CatchF`).
- Strings are simplified:
  - `toUpperCase` is modelled on ASCII letters only.
  - `String.replace` is modelled for a literal pattern without `$` replacement patterns.
  - `parseInt` is modelled without the double-precision limit.
  - `Number()` is modelled for the field values a message can carry (missing, null, booleans, numbers), not for strings.
- The scene graph is flattened: a traversal is the sequence of objects it visits.
- The dollhouse tab is modelled only in its effect on navigation: blank, `setMode("dollhouse")`, and the reveal. Its fades, its own enter token, the reset animation and `ensureBestModelHasNode` are not modelled. Neither are `dollhouseReady` and the bounds and alignment kept in a `dollCache` entry.
- The model buttons' initial highlight is modelled as none.
- The pano tab's `classList.contains("active")` check is taken to agree with `mode === "pano"`.
- Per-element reveal timers (`__uiTimers`) are not modelled: a later reveal of the same element does not cancel an earlier one in the model.
- Navigation.Viewer.HandleGotoNode: it decodes with whole numbers required. A fractional target, which the code as written sends on to `jumpToPano(1.5)`, is ignored. `Commands.GotoNodeActionAsWritten` models that branch choice, but the jump to a fractional index is not modelled.
- Commands.GotoNodeActionSound: it is stated for the corrected decoder. For the code as written, `Commands.GotoNodeActionAsWrittenSound` states the weaker guarantee that holds: a jump target may be fractional.
- Navigation.Viewer.RestartTour: this is the restart with token checks (`RestartF`), the corrected half of the first finding; the forward button uses the restart as written (`RestartTourAsWritten`).
- `vite.config.js` is build configuration and is not part of this model.

## Findings

| source | as written | input that shows it | evidently intended | confidence | as-written member | corrected member |
|---|---|---|---|---|---|---|
| src/main.js:1788-1832 | `restartTourFromFirstNodeWithFade` never re-checks the cancel token after its awaits, and its `finally` releases the flag unconditionally | a hard jump to node `j != 0` (a dollhouse marker, or `RTF_GOTO_NODE`) arrives during the first fade; the restart then commits node 0 over it | the `stillValid()` checks that `goTo` makes, so that an operation that cancelled the restart stands | not executed | NavSpec.RestartAsWrittenOverridesJump | NavSpec.RestartYieldsDuringFadeOut |
| src/main.js:525-533 | `__coerceTargetIndex` accepts any finite number, and the clamp keeps fractions | `{ type: "RTF_GOTO_NODE", panoIndex: 1.5 }` reaches `jumpToPano(1.5)`, which loads `PANOS[1.5]` (undefined) | only whole node indices are targets | not executed | Commands.FractionalTargetJumps | Commands.CoerceTargetIndex |
