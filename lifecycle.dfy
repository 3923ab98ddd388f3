/** The life cycle of the network background: initNetworkCanvas() with its
    three guards and its two module-level flags, the DOMContentLoaded handler
    that calls it once, and the global resize handler that calls it again only
    while the network is not yet initialised.

    A pure trace model (Lifecycle, Event, Run) counts what the page
    accumulates: resize listeners of the network and running animation loops.
    The class Page performs the same steps on objects, and each of its methods
    is tied to one step of the trace model. */
module Lifecycle {
  import opened Particle
  import opened Network
  import opened Wrappers

  /** What the page answers to init's queries: whether the canvas is styled
      `display: none`, whether the user prefers reduced motion, and the
      displayed size of the canvas element. */
  datatype Host = Host(displayNone: bool, reducedMotion: bool, offsetWidth: nat, offsetHeight: nat)

  /** Init goes past its three early returns: the canvas exists, it is
      displayed, and reduced motion is not requested. */
  predicate GuardsPass(canvasPresent: bool, host: Host) {
    canvasPresent && !host.displayNone && !host.reducedMotion
  }

  // ---------------------------------------------------------------------------
  // Trace model
  // ---------------------------------------------------------------------------

  /** The value of networkInitialized, the number of network resize listeners
      registered on the window, and the number of animation loops started. */
  datatype Lifecycle = Lifecycle(initialized: bool, listeners: nat, loops: nat)

  /** The state when the script has been loaded. */
  const Start := Lifecycle(false, 0, 0)

  /** One call of initNetworkCanvas(): nothing when a guard returns early;
      otherwise a listener is added only while the flag is unset, an animation
      loop is started, and the flag is set. */
  function AfterInit(s: Lifecycle, pass: bool): (t: Lifecycle)
    ensures t.initialized <==> s.initialized || pass
    ensures !pass ==> t == s
    ensures pass ==> t.loops == s.loops + 1
    ensures t.listeners == s.listeners + (if pass && !s.initialized then 1 else 0)
  {
    if !pass then s
    else Lifecycle(true, if s.initialized then s.listeners else s.listeners + 1, s.loops + 1)
  }

  /** The events that reach init, each with whether the guards would pass at
      that moment. */
  datatype Event = DomContentLoaded(pass: bool) | WindowResize(pass: bool)

  /** DOMContentLoaded always calls init; the global resize handler calls it
      only while the flag is unset. (The network's own resize listener only
      resizes the canvas and leaves this state alone.) */
  function Dispatch(s: Lifecycle, e: Event): (t: Lifecycle)
    ensures t.initialized <==> s.initialized || e.pass
    ensures OneListener(s) ==> OneListener(t)
    ensures s.initialized && e.WindowResize? ==> t == s
    ensures e.DomContentLoaded? ==> t == AfterInit(s, e.pass)
  {
    match e
    case DomContentLoaded(p) => AfterInit(s, p)
    case WindowResize(p) => if s.initialized then s else AfterInit(s, p)
  }

  function Run(s: Lifecycle, es: seq<Event>): Lifecycle
    decreases |es|
  {
    if es == [] then s else Run(Dispatch(s, es[0]), es[1..])
  }

  /** There is exactly one network resize listener once initialised, and none
      before. */
  predicate OneListener(s: Lifecycle) {
    s.listeners == if s.initialized then 1 else 0
  }

  /** One listener and one animation loop once initialised, none before. */
  predicate SingleLoop(s: Lifecycle) {
    OneListener(s) && s.loops == s.listeners
  }

  predicate AllResizes(es: seq<Event>) {
    forall k :: 0 <= k < |es| ==> es[k].WindowResize?
  }

  /** However often and from wherever init is called, the resize listener is
      registered at most once. */
  lemma {:induction false} RunKeepsOneListener(s: Lifecycle, es: seq<Event>)
    requires OneListener(s)
    ensures OneListener(Run(s, es))
    ensures Run(s, es).listeners <= 1
    decreases |es|
  {
    if es != [] {
      RunKeepsOneListener(Dispatch(s, es[0]), es[1..]);
    }
  }

  /** Resizes never start a second animation loop: the global handler re-enters
      init only while no loop runs. */
  lemma {:induction false} ResizesKeepSingleLoop(s: Lifecycle, es: seq<Event>)
    requires SingleLoop(s) && AllResizes(es)
    ensures SingleLoop(Run(s, es))
    decreases |es|
  {
    if es != [] {
      assert es[0].WindowResize?;
      assert AllResizes(es[1..]) by {
        forall k | 0 <= k < |es[1..]| ensures es[1..][k].WindowResize? {
          assert es[1..][k] == es[k + 1];
        }
      }
      ResizesKeepSingleLoop(Dispatch(s, es[0]), es[1..]);
    }
  }

  /** After a successful init, resizes leave the life cycle exactly as it is. */
  lemma {:induction false} ResizesAfterInitChangeNothing(s: Lifecycle, es: seq<Event>)
    requires s.initialized && AllResizes(es)
    ensures Run(s, es) == s
    decreases |es|
  {
    if es != [] {
      assert es[0].WindowResize?;
      assert AllResizes(es[1..]) by {
        forall k | 0 <= k < |es[1..]| ensures es[1..][k].WindowResize? {
          assert es[1..][k] == es[k + 1];
        }
      }
      ResizesAfterInitChangeNothing(Dispatch(s, es[0]), es[1..]);
    }
  }

  /** The network ends up initialised exactly when it already was or some
      event found the guards passing: a resize after an early return (say,
      the canvas became visible) starts it late, and once started it stays. */
  lemma {:induction false} InitializedIffSomeGuardsPass(s: Lifecycle, es: seq<Event>)
    ensures Run(s, es).initialized <==> s.initialized || exists k :: 0 <= k < |es| && es[k].pass
    decreases |es|
  {
    if es != [] {
      InitializedIffSomeGuardsPass(Dispatch(s, es[0]), es[1..]);
      if exists k :: 0 <= k < |es[1..]| && es[1..][k].pass {
        var k :| 0 <= k < |es[1..]| && es[1..][k].pass;
        assert es[k + 1].pass;
      }
      if exists k :: 0 <= k < |es| && es[k].pass {
        var k :| 0 <= k < |es| && es[k].pass;
        if k > 0 {
          assert es[1..][k - 1].pass;
        }
      }
    }
  }

  /** While every guard check fails, nothing changes. */
  lemma {:induction false} GuardsFailingChangeNothing(s: Lifecycle, es: seq<Event>)
    requires forall k :: 0 <= k < |es| ==> !es[k].pass
    ensures Run(s, es) == s
    decreases |es|
  {
    if es != [] {
      assert !es[0].pass;
      assert forall k :: 0 <= k < |es[1..]| ==> !es[1..][k].pass by {
        forall k | 0 <= k < |es[1..]| ensures !es[1..][k].pass {
          assert es[1..][k] == es[k + 1];
        }
      }
      GuardsFailingChangeNothing(s, es[1..]);
    }
  }

  /** When DOMContentLoaded comes first and only resizes follow it, the
      page's own callers never register more than one listener or run more
      than one animation loop. (The other order is
      ResizeBeforeLoadStartsSecondLoop.) */
  lemma PageLifetime(p: bool, resizes: seq<Event>)
    requires AllResizes(resizes)
    ensures SingleLoop(Run(Start, [DomContentLoaded(p)] + resizes))
    ensures Run(Start, [DomContentLoaded(p)] + resizes).loops <= 1
  {
    var es := [DomContentLoaded(p)] + resizes;
    assert es[0] == DomContentLoaded(p) && es[1..] == resizes;
    ResizesKeepSingleLoop(AfterInit(Start, p), resizes);
  }

  /** The global resize handler exists from the moment the script is loaded,
      so a resize can arrive before DOMContentLoaded. When the guards pass
      then, init runs from the resize handler, and DOMContentLoaded calls it
      again without looking at the flag: a second animation loop starts. */
  lemma ResizeBeforeLoadStartsSecondLoop()
    ensures Run(Start, [WindowResize(true), DomContentLoaded(true)]) == Lifecycle(true, 1, 2)
  {
    var es := [WindowResize(true), DomContentLoaded(true)];
    assert es[1..] == [DomContentLoaded(true)] && es[1..][1..] == [];
  }

  /** The dispatch with DOMContentLoaded checking the flag as the resize
      handler does: init runs only while the network is not initialised. */
  function DispatchGuarded(s: Lifecycle, e: Event): (t: Lifecycle)
    ensures t.initialized <==> s.initialized || e.pass
    ensures SingleLoop(s) ==> SingleLoop(t)
    ensures e.WindowResize? ==> t == Dispatch(s, e)
  {
    if s.initialized then s else AfterInit(s, e.pass)
  }

  function RunGuarded(s: Lifecycle, es: seq<Event>): Lifecycle
    decreases |es|
  {
    if es == [] then s else RunGuarded(DispatchGuarded(s, es[0]), es[1..])
  }

  /** With both callers guarded, no order of events ever runs more than one
      animation loop or registers more than one listener. */
  lemma {:induction false} GuardedRunKeepsSingleLoop(s: Lifecycle, es: seq<Event>)
    requires SingleLoop(s)
    ensures SingleLoop(RunGuarded(s, es))
    ensures RunGuarded(s, es).loops <= 1
    decreases |es|
  {
    if es != [] {
      GuardedRunKeepsSingleLoop(DispatchGuarded(s, es[0]), es[1..]);
    }
  }

  /** The guarded dispatch changes nothing in the order the page expects,
      DOMContentLoaded first and resizes after it. */
  lemma {:induction false} GuardedAgreesOnPageOrder(s: Lifecycle, es: seq<Event>)
    requires !s.initialized || AllResizes(es)
    requires es == [] || AllResizes(es[1..])
    ensures RunGuarded(s, es) == Run(s, es)
    decreases |es|
  {
    if es != [] {
      assert Dispatch(s, es[0]) == DispatchGuarded(s, es[0]);
      if es[1..] != [] {
        assert AllResizes(es[1..][1..]) by {
          forall k | 0 <= k < |es[1..][1..]| ensures es[1..][1..][k].WindowResize? {
            assert es[1..][1..][k] == es[1..][k + 1];
          }
        }
      }
      GuardedAgreesOnPageOrder(DispatchGuarded(s, es[0]), es[1..]);
    }
  }

  /** Only the listener is guarded by the flag: a second successful call of
      init starts a second animation loop, though it adds no listener. */
  lemma DirectReinitStartsSecondLoop()
    ensures AfterInit(AfterInit(Start, true), true) == Lifecycle(true, 1, 2)
  {
  }

  // ---------------------------------------------------------------------------
  // The page's objects
  // ---------------------------------------------------------------------------

  /** The script's module-level state and what it has set in motion. */
  class Page {
    /** The #network-canvas element, if the document has one. */
    const canvas: Canvas?
    var networkInitialized: bool
    /** The canvases whose resize handler init has registered on the window. */
    var resizeHandlers: seq<Canvas>
    var networkAnimationId: Option<nat>
    /** The networks whose animation loop has been started. */
    var animations: seq<Network>

    ghost function Abstract(): Lifecycle
      reads this
    {
      Lifecycle(networkInitialized, |resizeHandlers|, |animations|)
    }

    /** Every registered handler resizes the page's canvas, and there is one
        handler once initialised, none before. */
    ghost predicate Valid()
      reads this
    {
      OneListener(Abstract()) &&
      forall k :: 0 <= k < |resizeHandlers| ==> resizeHandlers[k] == canvas
    }

    /** The state when the script has been loaded. */
    constructor (canvas0: Canvas?)
      ensures canvas == canvas0 && networkAnimationId == None
      ensures Abstract() == Start && animations == [] && Valid()
    {
      canvas := canvas0;
      networkInitialized := false;
      resizeHandlers := [];
      networkAnimationId := None;
      animations := [];
    }

    /** initNetworkCanvas(), with the guard queries answered by host, the
        Math.random() values supplied by draws (one NodeDraws per node) and
        the id the first requestAnimationFrame() call returns. */
    method InitNetworkCanvas(host: Host, draws: seq<NodeDraws>, frameId: nat) returns (net: Network?)
      requires forall k :: 0 <= k < |draws| ==> draws[k].Valid()
      requires NodeCount(host.offsetWidth) <= |draws|
      modifies this, canvas
      ensures Abstract() == AfterInit(old(Abstract()), GuardsPass(canvas != null, host))
      ensures old(Valid()) ==> Valid()
      ensures !GuardsPass(canvas != null, host) ==>
                net == null && unchanged(this) && (canvas != null ==> unchanged(canvas))
      ensures GuardsPass(canvas != null, host) ==>
                net != null && fresh(net) && net.canvas == canvas && net.Valid() &&
                canvas.width == host.offsetWidth && canvas.height == host.offsetHeight &&
                |net.nodes| == NodeCount(canvas.width) &&
                (forall k :: 0 <= k < |net.nodes| ==> fresh(net.nodes[k])) &&
                (forall k :: 0 <= k < |net.nodes| ==>
                   net.nodes[k].State() == Spawned(draws[k], canvas.width, canvas.height)) &&
                animations == old(animations) + [net] &&
                networkAnimationId == Some(frameId) &&
                resizeHandlers == old(resizeHandlers) + (if old(networkInitialized) then [] else [canvas])
    {
      net := null;
      if canvas == null {
        return;
      }
      if host.displayNone {
        return;
      }
      if host.reducedMotion {
        return;
      }

      canvas.Resize(host.offsetWidth, host.offsetHeight);
      if !networkInitialized {
        resizeHandlers := resizeHandlers + [canvas];
      }

      var nodes := CreateNodes(canvas, draws);
      net := new Network(canvas, nodes);

      animations := animations + [net];
      networkAnimationId := Some(frameId);
      networkInitialized := true;
    }

    /** A window resize event: the global handler, registered when the script
        loaded, runs first and calls init while the flag is unset; then every
        network handler registered before the event resizes its canvas (a
        handler that init adds during this event does not run for it). */
    method OnWindowResize(host: Host, draws: seq<NodeDraws>, frameId: nat) returns (net: Network?)
      requires Valid()
      requires forall k :: 0 <= k < |draws| ==> draws[k].Valid()
      requires NodeCount(host.offsetWidth) <= |draws|
      modifies this, canvas
      ensures Valid()
      ensures Abstract() == Dispatch(old(Abstract()), WindowResize(GuardsPass(canvas != null, host)))
      ensures canvas != null && (old(networkInitialized) || GuardsPass(canvas != null, host)) ==>
                canvas.width == host.offsetWidth && canvas.height == host.offsetHeight
      ensures canvas != null && !old(networkInitialized) && !GuardsPass(canvas != null, host) ==>
                unchanged(canvas)
      ensures old(networkInitialized) || !GuardsPass(canvas != null, host) ==>
                net == null && networkAnimationId == old(networkAnimationId) &&
                animations == old(animations) && resizeHandlers == old(resizeHandlers)
      ensures !old(networkInitialized) && GuardsPass(canvas != null, host) ==>
                net != null && fresh(net) && net.canvas == canvas && net.Valid() &&
                |net.nodes| == NodeCount(canvas.width) &&
                (forall k :: 0 <= k < |net.nodes| ==> fresh(net.nodes[k])) &&
                (forall k :: 0 <= k < |net.nodes| ==>
                   net.nodes[k].State() == Spawned(draws[k], canvas.width, canvas.height)) &&
                animations == old(animations) + [net] &&
                networkAnimationId == Some(frameId) &&
                resizeHandlers == old(resizeHandlers) + [canvas]
    {
      var registered := resizeHandlers;
      net := null;
      if !networkInitialized {
        net := InitNetworkCanvas(host, draws, frameId);
      }
      for k := 0 to |registered|
        invariant Valid()
        invariant Abstract() == Dispatch(old(Abstract()), WindowResize(GuardsPass(canvas != null, host)))
        invariant k > 0 ==> canvas != null && canvas.width == host.offsetWidth && canvas.height == host.offsetHeight
        invariant canvas != null && !old(networkInitialized) && GuardsPass(canvas != null, host) ==>
                    canvas.width == host.offsetWidth && canvas.height == host.offsetHeight
        invariant canvas != null && !old(networkInitialized) && !GuardsPass(canvas != null, host) ==>
                    unchanged(canvas)
        invariant old(networkInitialized) || !GuardsPass(canvas != null, host) ==>
                    net == null && networkAnimationId == old(networkAnimationId) &&
                    animations == old(animations) && resizeHandlers == old(resizeHandlers)
        invariant !old(networkInitialized) && GuardsPass(canvas != null, host) ==>
                    net != null && fresh(net) && net.canvas == canvas && net.Valid() &&
                    |net.nodes| == NodeCount(canvas.width) &&
                    (forall m :: 0 <= m < |net.nodes| ==> fresh(net.nodes[m])) &&
                    (forall m :: 0 <= m < |net.nodes| ==>
                       net.nodes[m].State() == Spawned(draws[m], canvas.width, canvas.height)) &&
                    animations == old(animations) + [net] &&
                    networkAnimationId == Some(frameId) &&
                    resizeHandlers == old(resizeHandlers) + [canvas]
      {
        registered[k].Resize(host.offsetWidth, host.offsetHeight);
      }
    }
  }
}
