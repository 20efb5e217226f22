/**
 * The screen router: a LIFO stack of hidden screens, the current screen, and a transition flag.
 * Each navigation is split at its first await into a begin step (the guard that drops the call
 * while another transition is in flight, then the flag) and a complete step (the rest, with the
 * flag cleared on every exit path). Awaited fades are opaque steps recorded in `trace`.
 */
module NavigationService {
  import opened Wrappers
  import opened ScreenRegistry
  import opened Views
  import VM = ViewModels
  import Ids = ViewModelIdHelper

  datatype ScreenInstance = ScreenInstance(screenId: string, go: GameObject, vm: VM.ViewModel)

  /** The two InvalidOperationExceptions construction can throw. */
  datatype NavError = PrefabNotFound(screenId: string) | ViewNotFound(screenId: string)

  datatype NavStep =
    | AnimateOutView(go: GameObject)
    | AnimateInView(go: GameObject)
    | Deactivate(go: GameObject)
    | Activate(go: GameObject)
    | DisposeViewModel(vm: VM.ViewModel)
    | Destroy(go: GameObject)
    | Instantiate(go: GameObject)
    | Configure(vm: VM.ViewModel)
    | BindVm(vm: VM.ViewModel)
    | ShowView(go: GameObject)

  datatype Op = NavigateToOp | GoBackOp | ClearAndNavigateToOp

  /** Whether an instance of the prefab has a ViewBase for the view-model type (a PopupViewBase is one too). */
  predicate HasViewFor(prefab: Prefab, typeName: string) {
    !prefab.view.NoView? && prefab.view.vmType == typeName
  }

  /** UnbindAndDestroy of one screen. */
  function DisposalSteps(s: ScreenInstance): seq<NavStep> {
    [DisposeViewModel(s.vm), Destroy(s.go)]
  }

  /** Draining a stack whose top is its last element: the top is torn down first, the bottom last. */
  function TeardownSteps(screens: seq<ScreenInstance>): seq<NavStep> {
    if screens == [] then [] else TeardownSteps(screens[1..]) + DisposalSteps(screens[0])
  }

  /** NavigateTo's handling of the current screen: faded out and deactivated, not disposed. */
  function HideSteps(current: Option<ScreenInstance>): seq<NavStep> {
    if current.Some? then [AnimateOutView(current.value.go), Deactivate(current.value.go)] else []
  }

  /** GoBack's and ClearAndNavigateTo's handling of the current screen: faded out, disposed, destroyed. */
  function DropSteps(current: Option<ScreenInstance>): seq<NavStep> {
    if current.Some? then [AnimateOutView(current.value.go)] + DisposalSteps(current.value) else []
  }

  /** The order of a successful construction: instantiate, configure, bind, activate, animate in. */
  function CreationSteps(s: ScreenInstance, configure: bool): seq<NavStep> {
    [Instantiate(s.go)] + BindingSteps(s.go, s.vm, configure)
  }

  function BindingSteps(go: GameObject, vm: VM.ViewModel, configure: bool): seq<NavStep> {
    (if configure then [Configure(vm)] else []) + [BindVm(vm), Activate(go), ShowView(go)]
  }

  /** The objects of a list of screens. */
  ghost function Objects(screens: seq<ScreenInstance>): set<object> {
    (set s | s in screens :: s.go as object) + (set s | s in screens :: s.vm as object)
      + (set s | s in screens :: s.vm.disposables as object)
  }

  lemma ObjectsOf(screens: seq<ScreenInstance>, s: ScreenInstance)
    requires s in screens
    ensures s.go in Objects(screens) && s.vm in Objects(screens) && s.vm.disposables in Objects(screens)
  {
  }

  ghost function OptionSeq(o: Option<ScreenInstance>): seq<ScreenInstance> {
    if o.Some? then [o.value] else []
  }

  class NavigationService {
    const registry: Registry
    /** The hidden screens; the top of the stack is the last element. */
    var stack: seq<ScreenInstance>
    var current: Option<ScreenInstance>
    var transitioning: bool
    var trace: seq<NavStep>

    constructor (registry: Registry)
      ensures this.registry == registry && stack == [] && current.None? && !transitioning && trace == []
    {
      this.registry := registry;
      stack := [];
      current := None;
      transitioning := false;
      trace := [];
    }

    /** The registry's answer for the screen id of a view-model type. */
    function Lookup(typeName: string): Option<Prefab> {
      registry.GetPrefab(Ids.GetId(typeName))
    }

    function CurrentScreenId(): Option<string>
      reads this
    {
      if current.Some? then Some(current.value.screenId) else None
    }

    function CanGoBack(): bool
      reads this
    {
      |stack| > 0
    }

    function IsTransitioning(): bool
      reads this
    {
      transitioning
    }

    /** The guard each navigation runs before its first await. */
    method TryBegin(op: Op) returns (started: bool)
      modifies this`transitioning
      ensures started <==> !old(transitioning) && !(op == GoBackOp && |stack| == 0)
      ensures transitioning == (old(transitioning) || started)
    {
      if transitioning || (op == GoBackOp && |stack| == 0) {
        return false;
      }
      transitioning := true;
      started := true;
    }

    /**
     * CreateAndShowScreen: looks the screen id of the view-model type up in the registry, instantiates
     * the prefab, and fails (destroying the instance) when it has no view for that type; otherwise a new
     * view-model is configured, bound, activated and animated in.
     */
    method CreateAndShowScreen(typeName: string, configure: bool) returns (r: Result<ScreenInstance, NavError>)
      modifies this`trace
      ensures old(trace) <= trace
      ensures Lookup(typeName).None? ==> r == Err(PrefabNotFound(Ids.GetId(typeName))) && trace == old(trace)
      ensures Lookup(typeName).Some? && !HasViewFor(Lookup(typeName).value, typeName) ==>
        r == Err(ViewNotFound(Ids.GetId(typeName)))
        && |trace| == |old(trace)| + 2 && trace[..|old(trace)|] == old(trace)
        && trace[|old(trace)|].Instantiate? && trace[|old(trace)| + 1] == Destroy(trace[|old(trace)|].go)
        && trace[|old(trace)|].go.destroyed
      ensures Lookup(typeName).Some? && HasViewFor(Lookup(typeName).value, typeName) ==> r.Ok?
      ensures r.Ok? ==> var s := r.value;
        && s.screenId == Ids.GetId(typeName) && fresh(s.go) && fresh(s.vm)
        && s.go.active && !s.go.destroyed && s.go.prefab == registry.GetPrefab(s.screenId).value
        && s.vm.kind == VM.Plain && s.vm.initialized && !s.vm.disposed
        && s.vm.trace == [VM.Initialize] + AppearHooks(s.go.prefab.view.PopupView?, s.go.prefab.view.usesAnimator)
        && trace == old(trace) + CreationSteps(s, configure)
    {
      var screenId := Ids.GetId(typeName);
      var prefab := registry.GetPrefab(screenId);
      if prefab.None? {
        return Err(PrefabNotFound(screenId));
      }
      if prefab.value.view.NoView? || prefab.value.view.vmType != typeName {
        RejectPrefab(prefab.value);
        return Err(ViewNotFound(screenId));
      }
      var s := ShowNewScreen(screenId, prefab.value, configure);
      r := Ok(s);
    }

    /** A prefab without the expected view: its instance is destroyed again. */
    method RejectPrefab(prefab: Prefab)
      modifies this`trace
      ensures |trace| == |old(trace)| + 2 && trace[..|old(trace)|] == old(trace)
      ensures trace[|old(trace)|].Instantiate? && trace[|old(trace)| + 1] == Destroy(trace[|old(trace)|].go)
      ensures trace[|old(trace)|].go.destroyed
    {
      var go := new GameObject.Instantiate(prefab);
      go.destroyed := true;
      trace := trace + [Instantiate(go), Destroy(go)];
    }

    /** A prefab with the expected view: instantiated, bound to a new view-model and shown. */
    method ShowNewScreen(screenId: string, prefab: Prefab, configure: bool) returns (s: ScreenInstance)
      requires !prefab.view.NoView?
      modifies this`trace
      ensures s.screenId == screenId && fresh(s.go) && fresh(s.vm)
      ensures s.go.active && !s.go.destroyed && s.go.prefab == prefab
      ensures s.vm.kind == VM.Plain && s.vm.initialized && !s.vm.disposed
      ensures s.vm.trace == [VM.Initialize] + AppearHooks(prefab.view.PopupView?, prefab.view.usesAnimator)
      ensures trace == old(trace) + CreationSteps(s, configure)
    {
      var go := new GameObject.Instantiate(prefab);
      trace := trace + [Instantiate(go)];
      var vm := BindAndShow(go, configure);
      s := ScreenInstance(screenId, go, vm);
    }

    /** The second half of construction: a new view-model is configured, bound, then the object is activated and animated in. */
    method BindAndShow(go: GameObject, configure: bool) returns (vm: VM.ViewModel)
      requires go.view != null && go.view.Valid() && !go.view.bound
      modifies go`active, go.view, this`trace
      ensures fresh(vm) && vm.kind == VM.Plain && vm.initialized && !vm.disposed
      ensures vm.trace == [VM.Initialize] + AppearHooks(go.view.isPopup, go.view.usesAnimator)
      ensures go.active && go.view.bound && go.view.viewModel == vm
      ensures trace == old(trace) + BindingSteps(go, vm, configure)
    {
      vm := new VM.ViewModel(VM.Plain);
      if configure {
        trace := trace + [Configure(vm)];
      }
      go.view.Bind(vm);
      trace := trace + [BindVm(vm)];
      go.active := true;
      trace := trace + [Activate(go)];
      go.view.AnimateIn();
      trace := trace + [ShowView(go)];
    }

    /** Disposes the screen's view-model, then destroys its object. */
    method UnbindAndDestroy(s: ScreenInstance)
      modifies s.vm, s.vm.disposables, s.go, this`trace
      ensures s.vm.disposed && s.go.destroyed && s.go.active == old(s.go.active)
      ensures old(s.vm.Valid()) ==> s.vm.Valid()
      ensures trace == old(trace) + DisposalSteps(s)
    {
      s.vm.Dispose();
      s.go.destroyed := true;
      trace := trace + DisposalSteps(s);
    }

    /** The rest of NavigateTo: hide and push the current screen (not disposed), then construct the new one. */
    method CompleteNavigateTo(typeName: string, configure: bool) returns (r: Result<ScreenInstance, NavError>)
      requires transitioning
      modifies this`trace, this`stack, this`current, this`transitioning
      modifies if current.Some? then {current.value.go} else {}
      ensures !transitioning
      ensures stack == old(stack) + OptionSeq(old(current))
      ensures old(current).Some? ==> !old(current).value.go.active && old(current).value.vm.disposed == old(current.value.vm.disposed)
      ensures r.Ok? ==> current == Some(r.value) && r.value.screenId == Ids.GetId(typeName) && fresh(r.value.vm) && r.value.go.active
      ensures r.Err? ==> current == old(current)
      ensures r.Ok? ==> trace == old(trace) + HideSteps(old(current)) + CreationSteps(r.value, configure)
    {
      HideCurrent();
      r := ShowAsCurrent(typeName, configure);
    }

    /** The end of both navigations: the new screen, when it could be built, becomes the current one. */
    method ShowAsCurrent(typeName: string, configure: bool) returns (r: Result<ScreenInstance, NavError>)
      modifies this`trace, this`current, this`transitioning
      ensures !transitioning
      ensures r.Ok? ==> current == Some(r.value) && r.value.screenId == Ids.GetId(typeName) && fresh(r.value.vm) && r.value.go.active
      ensures r.Ok? ==> trace == old(trace) + CreationSteps(r.value, configure)
      ensures r.Err? ==> current == old(current)
    {
      r := CreateAndShowScreen(typeName, configure);
      if r.Ok? {
        current := Some(r.value);
      }
      transitioning := false;
    }

    /** NavigateTo's handling of the current screen: faded out, deactivated and pushed, not disposed. */
    method HideCurrent()
      modifies this`trace, this`stack, if current.Some? then {current.value.go} else {}
      ensures stack == old(stack) + OptionSeq(current)
      ensures current.Some? ==> !current.value.go.active
      ensures trace == old(trace) + HideSteps(current)
    {
      if current.Some? {
        var cur := current.value;
        trace := trace + [AnimateOutView(cur.go)];
        cur.go.active := false;
        trace := trace + [Deactivate(cur.go)];
        stack := stack + [cur];
      }
    }

    /** The rest of GoBack: fade out, dispose and destroy the current screen, then reactivate the top of the stack. */
    method CompleteGoBack()
      requires transitioning && |stack| > 0
      modifies this, stack[|stack| - 1].go
      modifies if current.Some? then {current.value.go, current.value.vm, current.value.vm.disposables} else {}
      ensures !transitioning
      ensures stack == old(stack[..|stack| - 1]) && current == Some(old(stack[|stack| - 1]))
      ensures current.value.go.active
      ensures old(current).Some? ==> old(current).value.vm.disposed && old(current).value.go.destroyed
      ensures trace == old(trace) + DropSteps(old(current)) + [Activate(current.value.go), AnimateInView(current.value.go)]
    {
      if current.Some? {
        var cur := current.value;
        trace := trace + [AnimateOutView(cur.go)];
        UnbindAndDestroy(cur);
      }
      var previous := stack[|stack| - 1];
      stack := stack[..|stack| - 1];
      previous.go.active := true;
      trace := trace + [Activate(previous.go)];
      current := Some(previous);
      trace := trace + [AnimateInView(previous.go)];
      transitioning := false;
    }

    /**
     * The rest of ClearAndNavigateTo: dispose and destroy the current screen, drain the stack top first,
     * then construct the new screen. When construction fails the current screen stays recorded, destroyed.
     */
    method CompleteClearAndNavigateTo(typeName: string, configure: bool) returns (r: Result<ScreenInstance, NavError>)
      requires transitioning
      modifies this`trace, this`stack, this`current, this`transitioning, Objects(stack), Objects(OptionSeq(current))
      ensures !transitioning && stack == []
      ensures forall s :: s in old(stack) ==> s.vm.disposed && s.go.destroyed
      ensures old(current).Some? ==> old(current).value.vm.disposed && old(current).value.go.destroyed
      ensures r.Ok? ==> current == Some(r.value) && r.value.screenId == Ids.GetId(typeName) && fresh(r.value.vm) && r.value.go.active
      ensures r.Err? ==> current == old(current)
      ensures r.Ok? ==> trace == old(trace) + DropSteps(old(current)) + TeardownSteps(old(stack)) + CreationSteps(r.value, configure)
    {
      Teardown();
      r := ShowAsCurrent(typeName, configure);
    }

    /** The current screen and then every stacked screen, top first, are disposed and destroyed. */
    method Teardown()
      modifies this`trace, this`stack, Objects(stack), Objects(OptionSeq(current))
      ensures stack == []
      ensures forall s :: s in old(stack) ==> s.vm.disposed && s.go.destroyed
      ensures current.Some? ==> current.value.vm.disposed && current.value.go.destroyed
      ensures trace == old(trace) + DropSteps(current) + TeardownSteps(old(stack))
    {
      DropCurrent();
      DrainStack(current);
    }

    /** ClearAndNavigateTo's handling of the current screen: faded out, disposed and destroyed. */
    method DropCurrent()
      modifies this`trace, Objects(OptionSeq(current))
      ensures current.Some? ==> current.value.vm.disposed && current.value.go.destroyed
      ensures trace == old(trace) + DropSteps(current)
    {
      if current.Some? {
        var cur := current.value;
        trace := trace + [AnimateOutView(cur.go)];
        ObjectsOf(OptionSeq(current), cur);
        UnbindAndDestroy(cur);
      }
    }

    /** The `while` loop of ClearAndNavigateTo: pop and dispose until the stack is empty. */
    method DrainStack(ghost kept: Option<ScreenInstance>)
      requires kept.Some? ==> kept.value.vm.disposed && kept.value.go.destroyed
      modifies this`stack, this`trace, Objects(stack)
      ensures stack == []
      ensures forall s :: s in old(stack) ==> s.vm.disposed && s.go.destroyed
      ensures trace == old(trace) + TeardownSteps(old(stack))
      ensures kept.Some? ==> kept.value.vm.disposed && kept.value.go.destroyed
    {
      ghost var all := stack;
      ghost var n := |stack|;
      while |stack| > 0
        invariant 0 <= n <= |all| && stack == all[..n]
        invariant Drained(all, n, old(trace), kept)
      {
        n := n - 1;
        ObjectsOf(all, all[n]);
        PopAndDispose(all, n, old(trace), kept);
      }
      assert all[0..] == all;
      forall s | s in all
        ensures s.vm.disposed && s.go.destroyed
      {
        var k :| 0 <= k < |all| && all[k] == s;
      }
    }

    /** The screens of `all` from `n` on are disposed and destroyed, in that order in the trace, and `kept` is still gone. */
    ghost predicate Drained(all: seq<ScreenInstance>, n: nat, t0: seq<NavStep>, kept: Option<ScreenInstance>)
      reads this, Objects(all), Objects(OptionSeq(kept))
    {
      && n <= |all|
      && (forall k :: n <= k < |all| ==> all[k].vm.disposed && all[k].go.destroyed)
      && trace == t0 + TeardownSteps(all[n..])
      && (kept.Some? ==> kept.value.vm.disposed && kept.value.go.destroyed)
    }

    /** One turn of that loop: the top screen is popped, disposed and destroyed. */
    method PopAndDispose(ghost all: seq<ScreenInstance>, ghost n: nat, ghost t0: seq<NavStep>, ghost kept: Option<ScreenInstance>)
      requires n < |all| && stack == all[..n + 1]
      requires Drained(all, n + 1, t0, kept)
      modifies this`stack, this`trace, all[n].vm, all[n].vm.disposables, all[n].go
      ensures stack == all[..n]
      ensures Drained(all, n, t0, kept)
    {
      var top := stack[|stack| - 1];
      stack := stack[..|stack| - 1];
      UnbindAndDestroy(top);
      TeardownStep(all, n);
    }

    /** NavigateTo: dropped (`None`) while a transition is in flight; otherwise the whole navigation. */
    method NavigateTo(typeName: string, configure: bool) returns (r: Option<Result<ScreenInstance, NavError>>)
      modifies this, if current.Some? then {current.value.go} else {}
      ensures old(transitioning) ==> r.None? && stack == old(stack) && current == old(current) && trace == old(trace)
      ensures !old(transitioning) ==> r.Some? && !transitioning && stack == old(stack) + OptionSeq(old(current))
      ensures r.Some? && r.value.Ok? ==> current == Some(r.value.value) && r.value.value.screenId == Ids.GetId(typeName)
      ensures r.Some? && r.value.Err? ==> current == old(current)
    {
      var started := TryBegin(NavigateToOp);
      if !started {
        return None;
      }
      var res := CompleteNavigateTo(typeName, configure);
      r := Some(res);
    }

    /** GoBack: dropped while a transition is in flight or when there is nothing to go back to. */
    method GoBack() returns (done: bool)
      modifies this, if |stack| > 0 then {stack[|stack| - 1].go} else {}
      modifies if current.Some? then {current.value.go, current.value.vm, current.value.vm.disposables} else {}
      ensures done <==> !old(transitioning) && |old(stack)| > 0
      ensures !done ==> stack == old(stack) && current == old(current) && trace == old(trace)
      ensures done ==> !transitioning && |stack| == |old(stack)| - 1 && current == Some(old(stack[|stack| - 1]))
      ensures done && old(current).Some? ==> old(current).value.vm.disposed && old(current).value.go.destroyed
    {
      done := TryBegin(GoBackOp);
      if !done {
        return;
      }
      CompleteGoBack();
    }

    /** ClearAndNavigateTo: dropped while a transition is in flight; otherwise empties the stack and builds one screen. */
    method ClearAndNavigateTo(typeName: string, configure: bool) returns (r: Option<Result<ScreenInstance, NavError>>)
      modifies this, Objects(stack), Objects(OptionSeq(current))
      ensures old(transitioning) ==> r.None? && stack == old(stack) && current == old(current) && trace == old(trace)
      ensures !old(transitioning) ==> r.Some? && !transitioning && stack == [] && !CanGoBack()
      ensures !old(transitioning) ==> forall s :: s in old(stack) ==> s.vm.disposed && s.go.destroyed
      ensures !old(transitioning) && old(current).Some? ==> old(current).value.vm.disposed && old(current).value.go.destroyed
      ensures r.Some? && r.value.Ok? ==> current == Some(r.value.value) && r.value.value.screenId == Ids.GetId(typeName)
    {
      var started := TryBegin(ClearAndNavigateToOp);
      if !started {
        return None;
      }
      var res := CompleteClearAndNavigateTo(typeName, configure);
      r := Some(res);
    }
  }

  /** Tearing down from position i: the screens above it first, then the one at i. */
  lemma TeardownStep(screens: seq<ScreenInstance>, i: nat)
    requires i < |screens|
    ensures TeardownSteps(screens[i..]) == TeardownSteps(screens[i + 1..]) + DisposalSteps(screens[i])
  {
    assert screens[i..][1..] == screens[i + 1..];
  }

  /** Tearing down a stack disposes each screen exactly once, so its length is two steps per screen. */
  lemma {:induction false} TeardownLength(screens: seq<ScreenInstance>)
    ensures |TeardownSteps(screens)| == 2 * |screens|
  {
    if screens != [] {
      TeardownLength(screens[1..]);
    }
  }

  /** The k-th screen torn down is the k-th from the top: its view-model is disposed, then its object destroyed. */
  lemma {:induction false} TeardownAt(screens: seq<ScreenInstance>, k: nat)
    requires k < |screens|
    ensures |TeardownSteps(screens)| == 2 * |screens|
    ensures TeardownSteps(screens)[2 * k] == DisposeViewModel(screens[|screens| - 1 - k].vm)
    ensures TeardownSteps(screens)[2 * k + 1] == Destroy(screens[|screens| - 1 - k].go)
  {
    TeardownLength(screens[1..]);
    if k < |screens| - 1 {
      TeardownAt(screens[1..], k);
    }
  }
}
