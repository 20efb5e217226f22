/**
 * The popup router: a LIFO stack of open popups and a dim background that is on exactly
 * when a popup is open. A popup closes itself through its close request, which pops it
 * only when it is the top of the stack by object identity. Awaited animations are opaque
 * steps; everything the service does is recorded in `trace`.
 */
module PopupService {
  import opened Wrappers
  import opened ScreenRegistry
  import opened Views
  import VM = ViewModels
  import Ids = ViewModelIdHelper

  datatype PopupInstance = PopupInstance(go: GameObject, vm: VM.ViewModel)

  /** The two InvalidOperationExceptions ShowPopupInternal can throw. */
  datatype PopupError = PrefabNotFound(screenId: string) | ViewNotFound(screenId: string)

  datatype PopupStep =
    | Instantiate(go: GameObject)
    | DestroyObject(go: GameObject)
    | Configure(vm: VM.ViewModel)
    | BindVm(vm: VM.ViewModel)
    | SubscribeClose(go: GameObject)
    | Push(go: GameObject)
    | Pop(go: GameObject)
    | Dim(on: bool)
    | Activate(go: GameObject)
    | ShowView(go: GameObject)
    | DisposeViewModel(vm: VM.ViewModel)

  /** Whether an instance of the prefab has a PopupViewBase for the view-model type. */
  predicate HasPopupViewFor(prefab: Prefab, typeName: string) {
    prefab.view.PopupView? && prefab.view.vmType == typeName
  }

  /** DestroyPopup: the view-model is disposed before the object is destroyed. */
  function DestroySteps(p: PopupInstance): seq<PopupStep> {
    [DisposeViewModel(p.vm), DestroyObject(p.go)]
  }

  /** CloseAll's loop over a stack whose top is its last element: top first. */
  function CloseAllSteps(popups: seq<PopupInstance>): seq<PopupStep> {
    if popups == [] then [] else CloseAllSteps(popups[1..]) + [Pop(popups[0].go)] + DestroySteps(popups[0])
  }

  /** The objects of a list of popups. */
  ghost function Objects(popups: seq<PopupInstance>): set<object> {
    (set p | p in popups :: p.go as object) + (set p | p in popups :: p.vm as object)
      + (set p | p in popups :: p.vm.disposables as object)
  }

  class PopupService {
    const registry: Registry
    /** Whether a dim background object is assigned. */
    const hasDim: bool
    /** The open popups; the top of the stack is the last element. */
    var stack: seq<PopupInstance>
    var dimActive: bool
    var trace: seq<PopupStep>

    constructor (registry: Registry, hasDim: bool)
      ensures this.registry == registry && this.hasDim == hasDim
      ensures stack == [] && !dimActive && trace == [] && DimInSync()
    {
      this.registry := registry;
      this.hasDim := hasDim;
      stack := [];
      dimActive := false;
      trace := [];
    }

    /** The dim background, when there is one, is active exactly when a popup is open. */
    ghost predicate DimInSync()
      reads this
    {
      hasDim ==> (dimActive <==> |stack| > 0)
    }

    function HasActivePopup(): bool
      reads this
    {
      |stack| > 0
    }

    function Lookup(typeName: string): Option<Prefab> {
      registry.GetPrefab(Ids.GetId(typeName))
    }

    method UpdateDimBackground()
      modifies this`dimActive, this`trace
      ensures DimInSync()
      ensures !hasDim ==> dimActive == old(dimActive) && trace == old(trace)
      ensures hasDim ==> trace == old(trace) + [Dim(|stack| > 0)]
    {
      if hasDim {
        dimActive := |stack| > 0;
        trace := trace + [Dim(|stack| > 0)];
      }
    }

    /**
     * ShowPopupInternal: look the prefab up, instantiate it, fail (destroying the instance) when it has
     * no popup view for the type; otherwise configure and bind a new view-model, subscribe its close
     * request, push it, update the dim, activate and animate in.
     */
    method ShowPopupInternal(typeName: string, kind: VM.Kind, configure: bool) returns (r: Result<PopupInstance, PopupError>)
      modifies this`stack, this`dimActive, this`trace
      ensures old(trace) <= trace
      ensures r.Err? ==> stack == old(stack) && dimActive == old(dimActive)
      ensures Lookup(typeName).None? ==> r == Err(PrefabNotFound(Ids.GetId(typeName))) && trace == old(trace)
      ensures Lookup(typeName).Some? && !HasPopupViewFor(Lookup(typeName).value, typeName) ==>
        r == Err(ViewNotFound(Ids.GetId(typeName)))
        && |trace| == |old(trace)| + 2 && trace[|old(trace)|].Instantiate?
        && trace[|old(trace)| + 1] == DestroyObject(trace[|old(trace)|].go) && trace[|old(trace)|].go.destroyed
      ensures Lookup(typeName).Some? && HasPopupViewFor(Lookup(typeName).value, typeName) ==> r.Ok?
      ensures r.Ok? ==> stack == old(stack) + [r.value] && DimInSync()
      ensures r.Ok? ==> fresh(r.value.go) && fresh(r.value.vm) && r.value.go.active && !r.value.go.destroyed
      ensures r.Ok? ==> r.value.vm.kind == kind && r.value.vm.initialized && !r.value.vm.disposed && r.value.vm.result.Pending?
      ensures r.Ok? ==> trace == old(trace) + [Instantiate(r.value.go)] + ShowSteps(r.value, configure)
    {
      var screenId := Ids.GetId(typeName);
      var prefab := registry.GetPrefab(screenId);
      if prefab.None? {
        return Err(PrefabNotFound(screenId));
      }
      if !prefab.value.view.PopupView? || prefab.value.view.vmType != typeName {
        RejectPrefab(prefab.value);
        return Err(ViewNotFound(screenId));
      }
      r := ShowNewPopup(prefab.value, kind, configure);
    }

    /** A prefab without a popup view for the type: its instance is destroyed again. */
    method RejectPrefab(prefab: Prefab)
      modifies this`trace
      ensures |trace| == |old(trace)| + 2 && trace[..|old(trace)|] == old(trace)
      ensures trace[|old(trace)|].Instantiate? && trace[|old(trace)| + 1] == DestroyObject(trace[|old(trace)|].go)
      ensures trace[|old(trace)|].go.destroyed
    {
      var go := new GameObject.Instantiate(prefab);
      go.destroyed := true;
      trace := trace + [Instantiate(go), DestroyObject(go)];
    }

    /** A prefab with a popup view: instantiated, bound, pushed and shown. */
    method ShowNewPopup(prefab: Prefab, kind: VM.Kind, configure: bool) returns (r: Result<PopupInstance, PopupError>)
      requires prefab.view.PopupView?
      modifies this`stack, this`dimActive, this`trace
      ensures r.Ok? && stack == old(stack) + [r.value] && DimInSync()
      ensures fresh(r.value.go) && fresh(r.value.vm) && r.value.go.active && !r.value.go.destroyed
      ensures r.value.vm.kind == kind && r.value.vm.initialized && !r.value.vm.disposed && r.value.vm.result.Pending?
      ensures trace == old(trace) + [Instantiate(r.value.go)] + ShowSteps(r.value, configure)
    {
      var go := new GameObject.Instantiate(prefab);
      trace := trace + [Instantiate(go)];
      var vm := BindPushAndShow(go, kind, configure);
      r := Ok(PopupInstance(go, vm));
    }

    /** The steps after instantiation, in source order; the push and the dim come before the animation. */
    function ShowSteps(p: PopupInstance, configure: bool): seq<PopupStep>
      reads this
    {
      (if configure then [Configure(p.vm)] else [])
        + [BindVm(p.vm), SubscribeClose(p.go), Push(p.go)]
        + (if hasDim then [Dim(true)] else [])
        + [Activate(p.go), ShowView(p.go)]
    }

    method BindPushAndShow(go: GameObject, kind: VM.Kind, configure: bool) returns (vm: VM.ViewModel)
      requires go.view != null && go.view.Valid() && !go.view.bound
      modifies go`active, go.view, this`stack, this`dimActive, this`trace
      ensures fresh(vm) && vm.kind == kind && vm.initialized && !vm.disposed && vm.result.Pending?
      ensures go.active && go.view.bound && go.view.viewModel == vm
      ensures stack == old(stack) + [PopupInstance(go, vm)] && DimInSync()
      ensures trace == old(trace) + ShowSteps(PopupInstance(go, vm), configure)
    {
      vm := BindPopup(go, kind, configure);
      PushAndShow(PopupInstance(go, vm));
    }

    /** Creates, configures and binds the view-model, then subscribes the close request. */
    method BindPopup(go: GameObject, kind: VM.Kind, configure: bool) returns (vm: VM.ViewModel)
      requires go.view != null && go.view.Valid() && !go.view.bound
      modifies go.view, this`trace
      ensures fresh(vm) && vm.kind == kind && vm.initialized && !vm.disposed && vm.result.Pending?
      ensures go.view.Valid() && go.view.bound && go.view.viewModel == vm
      ensures trace == old(trace) + (if configure then [Configure(vm)] else []) + [BindVm(vm), SubscribeClose(go)]
    {
      vm := new VM.ViewModel(kind);
      if configure {
        trace := trace + [Configure(vm)];
      }
      go.view.Bind(vm);
      trace := trace + [BindVm(vm), SubscribeClose(go)];
    }

    /** Pushes the bound popup, updates the dim, activates the object and animates it in. */
    method PushAndShow(p: PopupInstance)
      requires p.go.view != null && p.go.view.Valid() && p.go.view.viewModel == p.vm
      modifies p.go`active, p.go.view`interactable, p.go.view`steps, p.vm, this`stack, this`dimActive, this`trace
      ensures p.go.active && p.vm.initialized == old(p.vm.initialized) && p.vm.disposed == old(p.vm.disposed)
      ensures p.vm.result == old(p.vm.result)
      ensures stack == old(stack) + [p] && DimInSync()
      ensures trace == old(trace) + [Push(p.go)] + (if hasDim then [Dim(true)] else []) + [Activate(p.go), ShowView(p.go)]
    {
      stack := stack + [p];
      trace := trace + [Push(p.go)];
      UpdateDimBackground();
      p.go.active := true;
      trace := trace + [Activate(p.go)];
      p.go.view.AnimateIn();
      trace := trace + [ShowView(p.go)];
    }

    /**
     * The one-type-parameter ShowPopup: any view-model type, so `kind` is Popup when that type is a
     * PopupViewModel, whose pending result closing the popup later cancels.
     */
    method ShowPopup(typeName: string, kind: VM.Kind, configure: bool) returns (r: Result<PopupInstance, PopupError>)
      modifies this`stack, this`dimActive, this`trace
      ensures r.Err? ==> stack == old(stack)
      ensures r.Ok? ==> stack == old(stack) + [r.value] && DimInSync()
      ensures r.Ok? ==> r.value.vm.kind == kind && r.value.vm.result.Pending? && fresh(r.value.vm)
    {
      r := ShowPopupInternal(typeName, kind, configure);
    }

    /**
     * The typed ShowPopup: shows a PopupViewModel and hands back the view-model whose result the caller
     * awaits. That result is still pending here and settles later through SetResult, Cancel or disposal.
     */
    method ShowPopupForResult(typeName: string, configure: bool) returns (r: Result<VM.ViewModel, PopupError>)
      modifies this`stack, this`dimActive, this`trace
      ensures r.Err? ==> stack == old(stack)
      ensures r.Ok? ==> |stack| == |old(stack)| + 1 && stack[|stack| - 1].vm == r.value && DimInSync()
      ensures r.Ok? ==> r.value.kind == VM.Popup && r.value.result.Pending? && fresh(r.value)
    {
      var shown := ShowPopupInternal(typeName, VM.Popup, configure);
      if shown.Err? {
        return Err(shown.error);
      }
      r := Ok(shown.value.vm);
    }

    method DestroyPopup(p: PopupInstance)
      modifies p.vm, p.vm.disposables, p.go, this`trace
      ensures p.vm.disposed && p.go.destroyed
      ensures old(p.vm.disposed) ==> p.vm.result == old(p.vm.result)
      ensures !old(p.vm.disposed) && p.vm.kind == VM.Popup ==> p.vm.result == VM.TrySetCanceled(old(p.vm.result))
      ensures trace == old(trace) + DestroySteps(p)
    {
      p.vm.Dispose();
      p.go.destroyed := true;
      trace := trace + DestroySteps(p);
    }

    /** Pops and destroys the top popup whoever it is; nothing happens on an empty stack. */
    method CloseTop()
      modifies this`stack, this`dimActive, this`trace, TopObjects(stack)
      ensures old(stack) == [] ==> stack == [] && dimActive == old(dimActive) && trace == old(trace)
      ensures old(stack) != [] ==> var top := old(stack)[|old(stack)| - 1];
        stack == old(stack)[..|old(stack)| - 1] && DimInSync() && top.vm.disposed && top.go.destroyed
      ensures old(stack) != [] ==> var top := old(stack)[|old(stack)| - 1];
        trace == old(trace) + [Pop(top.go)] + DestroySteps(top) + (if hasDim then [Dim(|stack| > 0)] else [])
      ensures old(stack) != [] ==> var top := old(stack)[|old(stack)| - 1];
        old(top.vm.disposed) ==> top.vm.result == old(top.vm.result)
      ensures old(stack) != [] ==> var top := old(stack)[|old(stack)| - 1];
        !old(top.vm.disposed) && top.vm.kind == VM.Popup ==> top.vm.result == VM.TrySetCanceled(old(top.vm.result))
    {
      if |stack| == 0 {
        return;
      }
      PopTop();
    }

    /** Pops the top popup, disposes and destroys it, then updates the dim. */
    method PopTop()
      requires stack != []
      modifies this`stack, this`dimActive, this`trace, TopObjects(stack)
      ensures var top := old(stack)[|old(stack)| - 1];
        stack == old(stack)[..|old(stack)| - 1] && DimInSync() && top.vm.disposed && top.go.destroyed
      ensures var top := old(stack)[|old(stack)| - 1];
        trace == old(trace) + [Pop(top.go)] + DestroySteps(top) + (if hasDim then [Dim(|stack| > 0)] else [])
      ensures var top := old(stack)[|old(stack)| - 1];
        old(top.vm.disposed) ==> top.vm.result == old(top.vm.result)
      ensures var top := old(stack)[|old(stack)| - 1];
        !old(top.vm.disposed) && top.vm.kind == VM.Popup ==> top.vm.result == VM.TrySetCanceled(old(top.vm.result))
    {
      var top := stack[|stack| - 1];
      stack := stack[..|stack| - 1];
      trace := trace + [Pop(top.go)];
      DestroyPopup(top);
      UpdateDimBackground();
    }

    /** Pops and destroys every popup, top first, then turns the dim off. */
    method CloseAll()
      modifies this`stack, this`dimActive, this`trace, Objects(stack)
      ensures stack == [] && DimInSync() && (hasDim ==> !dimActive)
      ensures forall p :: p in old(stack) ==> p.vm.disposed && p.go.destroyed
      ensures trace == old(trace) + CloseAllSteps(old(stack)) + (if hasDim then [Dim(false)] else [])
    {
      ghost var all := stack;
      ghost var n := |stack|;
      while |stack| > 0
        invariant 0 <= n <= |all| && stack == all[..n]
        invariant Closed(all, n, old(trace))
      {
        n := n - 1;
        ObjectsOf(all, all[n]);
        PopAndDestroy(all, n, old(trace));
      }
      assert all[0..] == all;
      UpdateDimBackground();
    }

    /** The popups of `all` from `n` on are disposed and destroyed, and the trace holds their closing steps. */
    ghost predicate Closed(all: seq<PopupInstance>, n: nat, t0: seq<PopupStep>)
      reads this, Objects(all)
    {
      && n <= |all|
      && (forall k :: n <= k < |all| ==> all[k].vm.disposed && all[k].go.destroyed)
      && trace == t0 + CloseAllSteps(all[n..])
    }

    /** One turn of CloseAll's loop: the top popup is popped, disposed and destroyed. */
    method PopAndDestroy(ghost all: seq<PopupInstance>, ghost n: nat, ghost t0: seq<PopupStep>)
      requires n < |all| && stack == all[..n + 1]
      requires Closed(all, n + 1, t0)
      modifies this`stack, this`trace, all[n].vm, all[n].vm.disposables, all[n].go
      ensures stack == all[..n]
      ensures Closed(all, n, t0)
    {
      var popup := stack[|stack| - 1];
      stack := stack[..|stack| - 1];
      trace := trace + [Pop(popup.go)];
      DestroyPopup(popup);
      assert all[n..][1..] == all[n + 1..];
    }

    /** The close-request handler of the popup on `go`: it acts only when that object is the top of the stack. */
    method ClosePopup(go: GameObject)
      modifies this`stack, this`dimActive, this`trace, if IsTop(stack, go) then TopObjects(stack) else {}
      ensures !IsTop(old(stack), go) ==> stack == old(stack) && dimActive == old(dimActive) && trace == old(trace)
      ensures IsTop(old(stack), go) ==> var top := old(stack)[|old(stack)| - 1];
        stack == old(stack)[..|old(stack)| - 1] && DimInSync() && top.vm.disposed && go.destroyed
      ensures IsTop(old(stack), go) ==> var top := old(stack)[|old(stack)| - 1];
        trace == old(trace) + [Pop(go)] + DestroySteps(top) + (if hasDim then [Dim(|stack| > 0)] else [])
      ensures IsTop(old(stack), go) ==> var top := old(stack)[|old(stack)| - 1];
        old(top.vm.disposed) ==> top.vm.result == old(top.vm.result)
      ensures IsTop(old(stack), go) ==> var top := old(stack)[|old(stack)| - 1];
        !old(top.vm.disposed) && top.vm.kind == VM.Popup ==> top.vm.result == VM.TrySetCanceled(old(top.vm.result))
    {
      if |stack| == 0 {
        return;
      }
      var top := stack[|stack| - 1];
      if top.go == go {
        PopTop();
      }
    }
  }

  /** Whether the popup on `go` is the top of the stack. */
  predicate IsTop(popups: seq<PopupInstance>, go: GameObject) {
    popups != [] && popups[|popups| - 1].go == go
  }

  /** The objects of the top popup, which closing it may change; none for an empty stack. */
  ghost function TopObjects(popups: seq<PopupInstance>): set<object> {
    if popups == [] then {} else Objects(popups[|popups| - 1..])
  }

  lemma ObjectsOf(popups: seq<PopupInstance>, p: PopupInstance)
    requires p in popups
    ensures p.go in Objects(popups) && p.vm in Objects(popups) && p.vm.disposables in Objects(popups)
  {
  }

  /** CloseAll's k-th pop is the k-th popup from the top, and each is disposed right after it is popped. */
  lemma {:induction false} CloseAllAt(popups: seq<PopupInstance>, k: nat)
    requires k < |popups|
    ensures |CloseAllSteps(popups)| == 3 * |popups|
    ensures CloseAllSteps(popups)[3 * k] == Pop(popups[|popups| - 1 - k].go)
    ensures CloseAllSteps(popups)[3 * k + 1] == DisposeViewModel(popups[|popups| - 1 - k].vm)
  {
    CloseAllLength(popups[1..]);
    if k < |popups| - 1 {
      CloseAllAt(popups[1..], k);
    }
  }

  lemma {:induction false} CloseAllLength(popups: seq<PopupInstance>)
    ensures |CloseAllSteps(popups)| == 3 * |popups|
  {
    if popups != [] {
      CloseAllLength(popups[1..]);
    }
  }
}
