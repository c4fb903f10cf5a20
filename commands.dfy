/**
 * Decoding of the inbound `RTF_GOTO_NODE` message and the choice between an
 * animated adjacent move and a hard jump (src/main.js `__coerceTargetIndex`
 * and the `RTF_GOTO_NODE` branch of the message listener).
 */
module Commands {

  import opened Base
  import Naming
  import opened NavSpec

  /** A JavaScript number. */
  datatype JsNumber = NaN | Infinity(negative: bool) | Finite(v: real)

  /** A message field as posted, before `Number(...)` is applied to it. */
  datatype Field = Missing | Null | Bool(b: bool) | Num(n: JsNumber)

  /** The two optional fields of `{ type: "RTF_GOTO_NODE", panoIndex?, nodeId? }`. */
  datatype GotoNode = GotoNode(panoIndex: Field, nodeId: Field)

  /** `Number(x)`: `undefined` is NaN, `null` is 0, booleans are 0 and 1. */
  function ToNumber(f: Field): JsNumber
  {
    match f
    case Missing => NaN
    case Null => Finite(0.0)
    case Bool(b) => Finite(if b then 1.0 else 0.0)
    case Num(n) => n
  }

  predicate IsWhole(x: real) { x == x.Floor as real }

  // ---------------------------------------------------------------------------
  // As written
  // ---------------------------------------------------------------------------

  /**
   * `__coerceTargetIndex` as written: `panoIndex` when finite and >= 0, else
   * `nodeId - 1` when `nodeId` is finite and > 0, else nothing. Neither test
   * asks for a whole number.
   */
  function CoerceTargetIndexAsWritten(m: GotoNode): (r: Option<real>)
    ensures r.Some? ==> r.value >= 0.0 || (ToNumber(m.nodeId).Finite? && r.value > -1.0)
  {
    var p := ToNumber(m.panoIndex);
    if p.Finite? && p.v >= 0.0 then Some(p.v)
    else
      var n := ToNumber(m.nodeId);
      if n.Finite? && n.v > 0.0 then Some(n.v - 1.0) else None
  }

  /** `Math.max(0, Math.min(PANOS.length - 1, t))`, skipped while PANOS is empty. */
  function ClampAsWritten(t: real, count: nat): real
  {
    if count == 0 then t
    else if t < 0.0 then 0.0
    else if t > (count - 1) as real then (count - 1) as real
    else t
  }

  /**
   * A fractional `panoIndex` passes both the coercion and the clamp, so the
   * handler goes on to `jumpToPano(1.5)`, which looks up `PANOS[1.5]`.
   */
  lemma FractionalTargetSurvives()
    ensures CoerceTargetIndexAsWritten(GotoNode(Num(Finite(1.5)), Missing)) == Some(1.5)
    ensures ClampAsWritten(1.5, 10) == 1.5 && !IsWhole(1.5)
  {
    assert (1.5).Floor == 1;
  }

  // ---------------------------------------------------------------------------
  // Corrected: a target must be a whole number
  // ---------------------------------------------------------------------------

  /**
   * `__coerceTargetIndex` with whole numbers required: `panoIndex` takes
   * precedence, `nodeId` is 1-based, anything else is ignored.
   */
  function CoerceTargetIndex(m: GotoNode): (r: Option<int>)
    ensures r.Some? ==> r.value >= 0
  {
    var p := ToNumber(m.panoIndex);
    if p.Finite? && p.v >= 0.0 && IsWhole(p.v) then Some(p.v.Floor)
    else
      var n := ToNumber(m.nodeId);
      if n.Finite? && n.v > 0.0 && IsWhole(n.v) then Some(n.v.Floor - 1) else None
  }

  /** A field that holds no fraction (a whole number, or not a finite number). */
  predicate WholeOrNotFinite(f: Field)
  {
    var x := ToNumber(f);
    !x.Finite? || IsWhole(x.v)
  }

  /**
   * On messages whose fields hold whole numbers the corrected decoder agrees
   * with the code as written, target for target.
   */
  lemma CoerceAgreesOnWholeNumbers(m: GotoNode)
    requires WholeOrNotFinite(m.panoIndex) && WholeOrNotFinite(m.nodeId)
    ensures CoerceTargetIndexAsWritten(m) ==
      match CoerceTargetIndex(m)
      case None => None
      case Some(i) => Some(i as real)
  {
  }

  /**
   * `panoIndex` wins when it is usable, and the node id posted by
   * `emitListingNodeChange` decodes back to the index it was made from.
   */
  lemma CoerceRoundTrip(i: nat, other: Field)
    ensures CoerceTargetIndex(GotoNode(Num(Finite(i as real)), other)) == Some(i)
    ensures CoerceTargetIndex(GotoNode(Missing, Num(Finite(Naming.NodeIdForIndex(i) as real)))) == Some(i)
  {
    assert (i as real).Floor == i;
    assert ((i + 1) as real).Floor == i + 1;
  }

  /** The clamp into `[0, PANOS.length - 1]`, skipped while PANOS is empty. */
  function ClampTarget(t: int, count: nat): (r: int)
    ensures count > 0 ==> 0 <= r < count
    ensures count > 0 && 0 <= t < count ==> r == t
    ensures count > 0 && t >= count ==> r == count - 1
    ensures count > 0 && t < 0 ==> r == 0
    ensures count == 0 ==> r == t
  {
    if count == 0 then t else Max(0, Min(count - 1, t))
  }

  // ---------------------------------------------------------------------------
  // Dispatch
  // ---------------------------------------------------------------------------

  datatype GotoAction =
    | Ignore               // no usable target
    | HardJump(target: int) // jumpToPano(target)
    | ReEmit                // already there: updateIndicator only
    | Animate(target: int)  // goTo(target)

  /** What the `RTF_GOTO_NODE` branch does with a message in a given state. */
  function GotoNodeAction(m: GotoNode, count: nat, mode: Mode, index: int, transitioning: bool): GotoAction
  {
    match CoerceTargetIndex(m)
    case None => Ignore
    case Some(t) =>
      var idx := ClampTarget(t, count);
      if mode != Pano then HardJump(idx)
      else if idx == index then ReEmit
      else if !transitioning && (idx - index == 1 || index - idx == 1) then Animate(idx)
      else HardJump(idx)
  }

  /**
   * The dispatch is sound: a message is ignored exactly when it has no usable
   * target; an animated move is chosen only when `goTo` will accept it, so it
   * is never a silent no-op; a jump target is always a node of the tour; and
   * a re-emit happens only in pano mode on the current node.
   */
  lemma GotoNodeActionSound(m: GotoNode, count: nat, mode: Mode, index: int, transitioning: bool)
    requires count > 0
    ensures var a := GotoNodeAction(m, count, mode, index, transitioning);
      && (a == Ignore <==> CoerceTargetIndex(m).None?)
      && (a.Animate? ==> GoToAccepts(mode, transitioning, index, a.target, count))
      && (a.HardJump? ==> 0 <= a.target < count)
      && (a == ReEmit ==> mode == Pano && 0 <= index < count)
      && ((CoerceTargetIndex(m).Some? && mode == Pano && !transitioning
           && GoToAccepts(mode, transitioning, index, ClampTarget(CoerceTargetIndex(m).value, count), count))
          ==> a == Animate(ClampTarget(CoerceTargetIndex(m).value, count)))
  {
  }

  // ---------------------------------------------------------------------------
  // Dispatch as written
  // ---------------------------------------------------------------------------

  /** The branch the message listener takes, on the target as written decodes it. */
  datatype RawAction =
    | RawIgnore
    | RawJump(target: real)
    | RawReEmit
    | RawAnimate(target: real)

  /** The `RTF_GOTO_NODE` branch as written, on `__coerceTargetIndex` as written. */
  function GotoNodeActionAsWritten(m: GotoNode, count: nat, mode: Mode, index: int, transitioning: bool): RawAction
  {
    match CoerceTargetIndexAsWritten(m)
    case None => RawIgnore
    case Some(t) =>
      var idx := ClampAsWritten(t, count);
      if mode != Pano then RawJump(idx)
      else if idx == index as real then RawReEmit
      else if !transitioning && (idx - index as real == 1.0 || index as real - idx == 1.0) then RawAnimate(idx)
      else RawJump(idx)
  }

  /** A corrected action, its target read as a JavaScript number. */
  function AsRaw(a: GotoAction): RawAction
  {
    match a
    case Ignore => RawIgnore
    case HardJump(t) => RawJump(t as real)
    case ReEmit => RawReEmit
    case Animate(t) => RawAnimate(t as real)
  }

  /**
   * The dispatch as written: a message is ignored exactly when the decoder
   * finds no target; an animated move always has a whole, adjacent target
   * that `goTo` accepts, so only a hard jump can carry a fraction; with a
   * non-empty tour a jump target lies between the first and the last node.
   */
  lemma GotoNodeActionAsWrittenSound(m: GotoNode, count: nat, mode: Mode, index: int, transitioning: bool)
    requires count > 0
    ensures var a := GotoNodeActionAsWritten(m, count, mode, index, transitioning);
      && (a == RawIgnore <==> CoerceTargetIndexAsWritten(m).None?)
      && (a.RawAnimate? ==> IsWhole(a.target) && GoToAccepts(mode, transitioning, index, a.target.Floor, count))
      && (a.RawJump? ==> 0.0 <= a.target <= (count - 1) as real)
  {
    var a := GotoNodeActionAsWritten(m, count, mode, index, transitioning);
    if a.RawAnimate? {
      var idx := a.target;
      if idx - index as real == 1.0 {
        assert idx == (index + 1) as real;
      } else {
        assert idx == (index - 1) as real;
      }
    }
  }

  /**
   * On messages whose fields hold whole numbers the dispatch as written and
   * the corrected one take the same branch with the same target.
   */
  lemma GotoNodeActionAgreesOnWholeNumbers(m: GotoNode, count: nat, mode: Mode, index: int, transitioning: bool)
    requires WholeOrNotFinite(m.panoIndex) && WholeOrNotFinite(m.nodeId)
    ensures GotoNodeActionAsWritten(m, count, mode, index, transitioning) ==
      AsRaw(GotoNodeAction(m, count, mode, index, transitioning))
  {
    CoerceAgreesOnWholeNumbers(m);
  }

  /**
   * `{ panoIndex: 1.5 }` in an idle pano tour at node 0: as written a hard
   * jump to 1.5; the corrected decoder ignores it.
   */
  lemma FractionalTargetJumps(count: nat)
    requires count > 2
    ensures GotoNodeActionAsWritten(GotoNode(Num(Finite(1.5)), Missing), count, Pano, 0, false) == RawJump(1.5)
    ensures GotoNodeAction(GotoNode(Num(Finite(1.5)), Missing), count, Pano, 0, false) == Ignore
  {
    FractionalTargetSurvives();
    assert (1.5).Floor == 1;
  }

  /** `{ nodeId: 5 }` at node 10 of an idle pano tour is a hard jump to index 4. */
  lemma NodeFiveFromTenJumps(count: nat)
    requires count > 10
    ensures GotoNodeAction(GotoNode(Missing, Num(Finite(5.0))), count, Pano, 10, false) == HardJump(4)
  {
    assert (5.0).Floor == 5;
  }
}
