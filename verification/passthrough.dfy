/** Passthrough mode control: the four calls of `IPassthroughAdapter`, the
    mode pair they determine, and the two backends that implement them
    (the Oculus Integration layer and the Meta OpenXR controller), each with
    the stub that is compiled when its backend is not. */
module Passthrough {

  /** One call on the adapter interface. */
  datatype PtCall = SetRGB(enabled: bool) | SetDepth(enabled: bool) | SetBoth(rgb: bool, depth: bool) | ShutdownAll

  /** Which passthrough modes are on. */
  datatype Mode = Mode(rgb: bool, depth: bool)

  /** The interface contract: what a call does to the mode of an available
      backend. Each call fixes its own components and keeps the others. */
  function ModeAfter(call: PtCall, m: Mode): Mode
  {
    match call
    case SetRGB(e) => m.(rgb := e)
    case SetDepth(e) => m.(depth := e)
    case SetBoth(r, d) => Mode(r, d)
    case ShutdownAll => Mode(false, false)
  }

  /** The composition rules of the interface: `SetBoth(r, d)` is `SetRGB(r)`
      then `SetDepth(d)`, `ShutdownAll` is `SetBoth(false, false)`, and the
      mode after either no longer depends on the mode before. */
  lemma CompositionRules(r: bool, d: bool, m: Mode, m0: Mode)
    ensures ModeAfter(SetBoth(r, d), m) == ModeAfter(SetDepth(d), ModeAfter(SetRGB(r), m))
    ensures ModeAfter(ShutdownAll, m) == ModeAfter(SetBoth(false, false), m)
    ensures ModeAfter(SetBoth(r, d), m) == ModeAfter(SetBoth(r, d), m0)
  {
  }

  /** The mode after a sequence of calls, applied in order. */
  function ModeAfterAll(calls: seq<PtCall>, m: Mode): Mode
    decreases |calls|
  {
    if calls == [] then m else ModeAfterAll(calls[1..], ModeAfter(calls[0], m))
  }

  /** Running two call sequences one after the other. */
  lemma {:induction false} ModeAfterAllAppend(a: seq<PtCall>, b: seq<PtCall>, m: Mode)
    ensures ModeAfterAll(a + b, m) == ModeAfterAll(b, ModeAfterAll(a, m))
    decreases |a|
  {
    if a == [] {
      assert a + b == b;
    } else {
      assert (a + b)[0] == a[0] && (a + b)[1..] == a[1..] + b;
      ModeAfterAllAppend(a[1..], b, ModeAfter(a[0], m));
    }
  }

  /** `SetBoth(r, d)` and `SetBoth(r, d)` twice leave the same mode, and
      `SetBoth(false, false)` is what `ShutdownAll` does. */
  lemma SetBothIdempotent(r: bool, d: bool, m: Mode)
    ensures ModeAfter(SetBoth(r, d), ModeAfter(SetBoth(r, d), m)) == ModeAfter(SetBoth(r, d), m)
    ensures ModeAfter(ShutdownAll, m) == ModeAfter(SetBoth(false, false), m)
  {
  }

  // ---------------------------------------------------------------------
  // Oculus Integration backend: the scene's passthrough layer.

  class OVRPassthroughLayer {
    var hidden: bool
    var edgeRenderingEnabled: bool

    constructor (hidden: bool, edgeRenderingEnabled: bool)
      ensures this.hidden == hidden && this.edgeRenderingEnabled == edgeRenderingEnabled
    {
      this.hidden := hidden;
      this.edgeRenderingEnabled := edgeRenderingEnabled;
    }
  }

  /** The two layer properties the adapter writes, as a value. */
  datatype LayerState = LayerState(hidden: bool, edgeRenderingEnabled: bool)

  /** The mode a layer shows: RGB is on when the layer is not hidden, depth
      is stood in for by edge rendering. */
  function LayerMode(st: LayerState): Mode
  {
    Mode(!st.hidden, st.edgeRenderingEnabled)
  }

  /** What a call does to an available layer. */
  function LayerAfter(call: PtCall, st: LayerState): LayerState
  {
    match call
    case SetRGB(e) => st.(hidden := !e)
    case SetDepth(e) => st.(edgeRenderingEnabled := e)
    case SetBoth(r, d) => LayerState(!r, d)
    case ShutdownAll => LayerState(true, false)
  }

  /** The layer backend implements the interface contract: reading the mode
      off the layer commutes with every call. */
  lemma LayerImplementsContract(call: PtCall, st: LayerState)
    ensures LayerMode(LayerAfter(call, st)) == ModeAfter(call, LayerMode(st))
  {
  }

  class OculusIntegrationPassthroughAdapter {
    /** The layer found in the scene at construction, or null. */
    const layer: OVRPassthroughLayer?

    constructor (layer: OVRPassthroughLayer?)
      ensures this.layer == layer
    {
      this.layer := layer;
    }

    predicate IsAvailable()
    {
      layer != null
    }

    ghost function State(): LayerState
      reads layer
      requires IsAvailable()
    {
      LayerState(layer.hidden, layer.edgeRenderingEnabled)
    }

    method SetRGB(enabled: bool)
      modifies layer
      ensures IsAvailable() ==> layer.hidden == !enabled
                                && layer.edgeRenderingEnabled == old(layer.edgeRenderingEnabled)
      ensures IsAvailable() ==> State() == LayerAfter(PtCall.SetRGB(enabled), old(State()))
    {
      if layer == null {
        return;
      }
      layer.hidden := !enabled;
    }

    method SetDepth(enabled: bool)
      modifies layer
      ensures IsAvailable() ==> layer.edgeRenderingEnabled == enabled
                                && layer.hidden == old(layer.hidden)
      ensures IsAvailable() ==> State() == LayerAfter(PtCall.SetDepth(enabled), old(State()))
    {
      if layer == null {
        return;
      }
      layer.edgeRenderingEnabled := enabled;
    }

    /** `SetRGB(rgbEnabled)` followed by `SetDepth(depthEnabled)`. */
    method SetBoth(rgbEnabled: bool, depthEnabled: bool)
      modifies layer
      ensures IsAvailable() ==> layer.hidden == !rgbEnabled && layer.edgeRenderingEnabled == depthEnabled
      ensures IsAvailable() ==> State() == LayerAfter(PtCall.SetBoth(rgbEnabled, depthEnabled), old(State()))
    {
      SetRGB(rgbEnabled);
      SetDepth(depthEnabled);
    }

    /** `SetBoth(false, false)`: the layer ends hidden, without edge rendering. */
    method ShutdownAll()
      modifies layer
      ensures IsAvailable() ==> layer.hidden && !layer.edgeRenderingEnabled
      ensures IsAvailable() ==> State() == LayerAfter(PtCall.ShutdownAll, old(State()))
    {
      SetBoth(false, false);
    }
  }

  /** The variant compiled without the Oculus Integration package: never
      available, and its mutators change nothing (they have no frame). */
  class OculusIntegrationPassthroughAdapterStub {
    constructor ()
      ensures !IsAvailable()
    {
    }

    predicate IsAvailable()
    {
      false
    }

    method SetRGB(enabled: bool)
    {
    }

    method SetDepth(enabled: bool)
    {
    }

    method SetBoth(rgbEnabled: bool, depthEnabled: bool)
    {
    }

    method ShutdownAll()
    {
    }
  }

  // ---------------------------------------------------------------------
  // Meta OpenXR backend: a scene controller with two toggles.

  /** A call the adapter makes on the controller. */
  datatype ControllerCall = EnableRGBCall(on: bool) | EnableDepthCall(on: bool)

  /** The scene component the adapter drives; it remembers the calls it got. */
  class MetaPassthroughController {
    var calls: seq<ControllerCall>

    constructor ()
      ensures calls == []
    {
      calls := [];
    }

    method EnableRGB(on: bool)
      modifies this
      ensures calls == old(calls) + [EnableRGBCall(on)]
    {
      calls := calls + [EnableRGBCall(on)];
    }

    method EnableDepth(on: bool)
      modifies this
      ensures calls == old(calls) + [EnableDepthCall(on)]
    {
      calls := calls + [EnableDepthCall(on)];
    }
  }

  /** The controller calls an available adapter issues for one interface call. */
  function ControllerCalls(call: PtCall): seq<ControllerCall>
  {
    match call
    case SetRGB(e) => [EnableRGBCall(e)]
    case SetDepth(e) => [EnableDepthCall(e)]
    case SetBoth(r, d) => [EnableRGBCall(r), EnableDepthCall(d)]
    case ShutdownAll => [EnableRGBCall(false), EnableDepthCall(false)]
  }

  /** The mode a controller ends in: the last value of each toggle wins. */
  function ControllerMode(calls: seq<ControllerCall>, m: Mode): Mode
    decreases |calls|
  {
    if calls == [] then m else ControllerMode(calls[1..], ControllerStep(calls[0], m))
  }

  /** One controller call sets its own toggle and leaves the other. */
  function ControllerStep(c: ControllerCall, m: Mode): Mode
  {
    match c
    case EnableRGBCall(on) => m.(rgb := on)
    case EnableDepthCall(on) => m.(depth := on)
  }

  lemma ControllerModeTwo(c: ControllerCall, d: ControllerCall, m: Mode)
    ensures ControllerMode([c], m) == ControllerStep(c, m)
    ensures ControllerMode([c, d], m) == ControllerStep(d, ControllerStep(c, m))
  {
    assert [c][1..] == [];
    assert [c, d][1..] == [d];
    assert [d][1..] == [];
    assert ControllerMode([c, d], m) == ControllerMode([d], ControllerStep(c, m));
  }

  lemma {:induction false} ControllerModeAppend(a: seq<ControllerCall>, b: seq<ControllerCall>, m: Mode)
    ensures ControllerMode(a + b, m) == ControllerMode(b, ControllerMode(a, m))
    decreases |a|
  {
    if a == [] {
      assert a + b == b;
    } else {
      assert (a + b)[0] == a[0] && (a + b)[1..] == a[1..] + b;
      ControllerModeAppend(a[1..], b, ControllerStep(a[0], m));
    }
  }

  /** The controller backend implements the interface contract: whatever
      calls came before, the calls for `call` move the mode as `ModeAfter` says. */
  lemma ControllerImplementsContract(before: seq<ControllerCall>, call: PtCall, m: Mode)
    ensures ControllerMode(before + ControllerCalls(call), m) == ModeAfter(call, ControllerMode(before, m))
  {
    ControllerModeAppend(before, ControllerCalls(call), m);
    var m0 := ControllerMode(before, m);
    match call
    case SetRGB(e) => ControllerModeTwo(EnableRGBCall(e), EnableRGBCall(e), m0);
    case SetDepth(e) => ControllerModeTwo(EnableDepthCall(e), EnableDepthCall(e), m0);
    case SetBoth(r, d) => ControllerModeTwo(EnableRGBCall(r), EnableDepthCall(d), m0);
    case ShutdownAll => ControllerModeTwo(EnableRGBCall(false), EnableDepthCall(false), m0);
  }

  class OpenXRMetaPassthroughAdapter {
    /** The controller found in the scene at construction, or null. */
    const ctrl: MetaPassthroughController?

    constructor (ctrl: MetaPassthroughController?)
      ensures this.ctrl == ctrl
    {
      this.ctrl := ctrl;
    }

    predicate IsAvailable()
    {
      ctrl != null
    }

    method SetRGB(enabled: bool)
      modifies ctrl
      ensures IsAvailable() ==> ctrl.calls == old(ctrl.calls) + ControllerCalls(PtCall.SetRGB(enabled))
    {
      if ctrl == null {
        return;
      }
      ctrl.EnableRGB(enabled);
    }

    method SetDepth(enabled: bool)
      modifies ctrl
      ensures IsAvailable() ==> ctrl.calls == old(ctrl.calls) + ControllerCalls(PtCall.SetDepth(enabled))
    {
      if ctrl == null {
        return;
      }
      ctrl.EnableDepth(enabled);
    }

    /** Issues the RGB toggle, then the depth toggle: the same calls as
        `SetRGB(rgbEnabled)` followed by `SetDepth(depthEnabled)`. */
    method SetBoth(rgbEnabled: bool, depthEnabled: bool)
      modifies ctrl
      ensures IsAvailable() ==> ctrl.calls == old(ctrl.calls) + [EnableRGBCall(rgbEnabled), EnableDepthCall(depthEnabled)]
      ensures IsAvailable() ==> ctrl.calls == old(ctrl.calls) + ControllerCalls(PtCall.SetRGB(rgbEnabled))
                                                          + ControllerCalls(PtCall.SetDepth(depthEnabled))
    {
      if ctrl == null {
        return;
      }
      ctrl.EnableRGB(rgbEnabled);
      ctrl.EnableDepth(depthEnabled);
    }

    /** Turns RGB off, then depth off: the calls of `SetBoth(false, false)`. */
    method ShutdownAll()
      modifies ctrl
      ensures IsAvailable() ==> ctrl.calls == old(ctrl.calls) + ControllerCalls(PtCall.SetBoth(false, false))
    {
      if ctrl == null {
        return;
      }
      ctrl.EnableRGB(false);
      ctrl.EnableDepth(false);
    }
  }

  /** The variant compiled without the Meta OpenXR package: never available,
      and its mutators change nothing (they have no frame). */
  class OpenXRMetaPassthroughAdapterStub {
    constructor ()
      ensures !IsAvailable()
    {
    }

    predicate IsAvailable()
    {
      false
    }

    method SetRGB(enabled: bool)
    {
    }

    method SetDepth(enabled: bool)
    {
    }

    method SetBoth(rgbEnabled: bool, depthEnabled: bool)
    {
    }

    method ShutdownAll()
    {
    }
  }
}
