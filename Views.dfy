/**
 * Views (ViewBase and its PopupViewBase subclass) and the scene objects they sit on.
 * A view binds one view-model at a time and drives its appearance hooks around opaque
 * animations; `steps` records, in order, everything a view does.
 */
module Views {
  import opened Lists
  import opened ScreenRegistry
  import VM = ViewModels
  import CD = CompositeDisposable

  /** The animations a view awaits; each is an opaque step that returns. */
  datatype Animation = AnimatorOpen | AnimatorClose | DelayThenFadeIn | FadeOut | ScaleIn | ScaleOut

  datatype ViewStep =
    | InitializeVm
    | OnBind(vm: VM.ViewModel)
    | OnUnbind
    | DisposeOwn
    | DisposeVm
    | Interactable(on: bool)
    | Hook(h: VM.Step)
    | Animate(a: Animation)

  /** A hook call that happens only when a view-model is bound (`_viewModel?.Hook()`). */
  function HookIf(hasVm: bool, h: VM.Step): seq<ViewStep> {
    if hasVm then [Hook(h)] else []
  }

  /** ViewBase.AnimateIn. */
  function BaseInSteps(usesAnimator: bool, hasVm: bool): seq<ViewStep> {
    [Interactable(false)] + HookIf(hasVm, VM.Appearing)
      + [Animate(if usesAnimator then AnimatorOpen else DelayThenFadeIn), Interactable(true)]
      + HookIf(hasVm, VM.Appeared)
  }

  /** ViewBase.AnimateOut: interactable is not turned back on. */
  function BaseOutSteps(usesAnimator: bool, hasVm: bool): seq<ViewStep> {
    [Interactable(false)] + HookIf(hasVm, VM.Disappearing)
      + [Animate(if usesAnimator then AnimatorClose else FadeOut)]
      + HookIf(hasVm, VM.Disappeared)
  }

  /** AnimateIn of a view, with PopupViewBase's override for popups (which calls the base in animator mode). */
  function InSteps(isPopup: bool, usesAnimator: bool, hasVm: bool): seq<ViewStep> {
    if !isPopup then BaseInSteps(usesAnimator, hasVm)
    else
      [Interactable(false)] + HookIf(hasVm, VM.Appearing)
        + if usesAnimator then BaseInSteps(usesAnimator, hasVm)
          else [Animate(ScaleIn), Interactable(true)] + HookIf(hasVm, VM.Appeared)
  }

  function OutSteps(isPopup: bool, usesAnimator: bool, hasVm: bool): seq<ViewStep> {
    if !isPopup then BaseOutSteps(usesAnimator, hasVm)
    else
      [Interactable(false)] + HookIf(hasVm, VM.Disappearing)
        + if usesAnimator then BaseOutSteps(usesAnimator, hasVm)
          else [Animate(ScaleOut)] + HookIf(hasVm, VM.Disappeared)
  }

  /** The view-model hooks among a list of view steps. */
  function Hooks(steps: seq<ViewStep>): (r: seq<VM.Step>)
    ensures |r| <= |steps|
  {
    if steps == [] then [] else (if steps[0].Hook? then [steps[0].h] else []) + Hooks(steps[1..])
  }

  lemma {:induction false} HooksAppend(a: seq<ViewStep>, b: seq<ViewStep>)
    ensures Hooks(a + b) == Hooks(a) + Hooks(b)
  {
    if a == [] {
      assert a + b == b;
    } else {
      var head := if a[0].Hook? then [a[0].h] else [];
      assert (a + b)[0] == a[0];
      assert (a + b)[1..] == a[1..] + b;
      HooksAppend(a[1..], b);
      calc {
        Hooks(a + b);
        head + Hooks(a[1..] + b);
        head + (Hooks(a[1..]) + Hooks(b));
        (head + Hooks(a[1..])) + Hooks(b);
      }
    }
  }

  lemma HooksSingle(x: ViewStep)
    ensures Hooks([x]) == if x.Hook? then [x.h] else []
  {
    assert [x][1..] == [];
  }

  /** The view-model hooks AnimateIn calls: a popup view in animator mode calls OnAppearing twice. */
  function AppearHooks(isPopup: bool, usesAnimator: bool): seq<VM.Step> {
    if isPopup && usesAnimator then [VM.Appearing, VM.Appearing, VM.Appeared] else [VM.Appearing, VM.Appeared]
  }

  /** The view-model hooks AnimateOut calls; in animator mode a popup view calls OnDisappearing twice. */
  function DisappearHooks(isPopup: bool, usesAnimator: bool): seq<VM.Step> {
    if isPopup && usesAnimator then [VM.Disappearing, VM.Disappearing, VM.Disappeared] else [VM.Disappearing, VM.Disappeared]
  }

  /**
   * What AnimateIn does, for every kind of view: it starts by making the view inert, turns
   * interaction back on, and the hooks among its steps are exactly AppearHooks, OnAppearing
   * first and OnAppeared last. In animator mode a popup view calls OnAppearing once in its
   * override and once more in the base method it delegates to.
   */
  lemma {:induction false} AnimateInShape(isPopup: bool, usesAnimator: bool)
    ensures var s := InSteps(isPopup, usesAnimator, true);
      && Hooks(s) == AppearHooks(isPopup, usesAnimator)
      && s[0] == Interactable(false)
      && Interactable(true) in s
  {
    var a := if usesAnimator then AnimatorOpen else DelayThenFadeIn;
    var i0, h1, an, i1, h2 := [Interactable(false)], [Hook(VM.Appearing)], [Animate(a)], [Interactable(true)], [Hook(VM.Appeared)];
    HooksSingle(i0[0]); HooksSingle(h1[0]); HooksSingle(an[0]); HooksSingle(i1[0]); HooksSingle(h2[0]);
    HooksAppend(i0, h1);
    HooksAppend(i0 + h1, an);
    HooksAppend(i0 + h1 + an, i1);
    HooksAppend(i0 + h1 + an + i1, h2);
    var base := i0 + h1 + an + i1 + h2;
    assert BaseInSteps(usesAnimator, true) == base;
    assert Hooks(base) == [VM.Appearing, VM.Appeared];
    if isPopup {
      if usesAnimator {
        HooksAppend(i0 + h1, base);
        assert InSteps(isPopup, usesAnimator, true) == i0 + h1 + base;
      } else {
        var sc := [Animate(ScaleIn)];
        HooksSingle(sc[0]);
        HooksAppend(i0 + h1, sc);
        HooksAppend(i0 + h1 + sc, i1);
        HooksAppend(i0 + h1 + sc + i1, h2);
        assert InSteps(isPopup, usesAnimator, true) == i0 + h1 + sc + i1 + h2;
      }
    }
  }

  /** AnimateOut never re-enables interaction: its only interactable change is to false. */
  lemma AnimateOutLeavesInert(isPopup: bool, usesAnimator: bool, hasVm: bool)
    ensures Interactable(false) in OutSteps(isPopup, usesAnimator, hasVm)
    ensures Interactable(true) !in OutSteps(isPopup, usesAnimator, hasVm)
  {
    var s := OutSteps(isPopup, usesAnimator, hasVm);
    assert s[0] == Interactable(false);
  }

  /** A scene object instantiated from a prefab; Destroy is modelled by the `destroyed` flag. */
  class GameObject {
    const prefab: Prefab
    /** The view component on the object, when the prefab has one. */
    const view: View?
    var active: bool
    var destroyed: bool

    /** Object.Instantiate: a copy of the prefab, with its own copy of the view component. */
    constructor Instantiate(prefab: Prefab)
      ensures this.prefab == prefab && active == prefab.activeSelf && !destroyed
      ensures prefab.view.NoView? <==> view == null
      ensures view != null ==> fresh(view) && view.Valid() && !view.bound && view.steps == []
      ensures view != null ==> view.isPopup == prefab.view.PopupView? && view.usesAnimator == prefab.view.usesAnimator
    {
      this.prefab := prefab;
      active := prefab.activeSelf;
      destroyed := false;
      match prefab.view
      case NoView => view := null;
      case ScreenView(_, animator) => view := new View(false, animator);
      case PopupView(_, animator) => view := new View(true, animator);
    }
  }

  class View {
    const isPopup: bool
    const usesAnimator: bool
    var bound: bool
    var viewModel: VM.ViewModel?
    var disposables: CD.CompositeDisposable?
    var interactable: bool
    var steps: seq<ViewStep>

    /** Bound exactly when a view-model and a composite are held, and that composite is the view's own. */
    ghost predicate Valid()
      reads this, viewModel
    {
      && (bound <==> viewModel != null)
      && (bound <==> disposables != null)
      && (bound ==> disposables != viewModel.disposables)
    }

    constructor (isPopup: bool, usesAnimator: bool)
      ensures this.isPopup == isPopup && this.usesAnimator == usesAnimator
      ensures Valid() && !bound && steps == [] && interactable
    {
      this.isPopup := isPopup;
      this.usesAnimator := usesAnimator;
      bound := false;
      viewModel := null;
      disposables := null;
      interactable := true;
      steps := [];
    }

    /** The objects Unbind may change. */
    ghost function Held(): set<object>
      reads this
    {
      (if viewModel != null then {viewModel, viewModel.disposables} else {})
        + (if disposables != null then {disposables} else {})
    }

    /** Unbind on an unbound view does nothing; otherwise: flag off, OnUnbind, own composite, view-model, reference. */
    method Unbind()
      requires Valid()
      modifies this, Held()
      ensures Valid() && !bound && viewModel == null && disposables == null
      ensures !old(bound) ==> steps == old(steps)
      ensures old(bound) ==> steps == old(steps) + [OnUnbind, DisposeOwn, DisposeVm]
      ensures old(bound) ==> old(disposables).isDisposed && old(viewModel).disposed
      ensures old(bound) && !old(viewModel.disposed) ==>
        old(viewModel).trace == old(viewModel.trace) + [VM.OnDispose, VM.OwnedDisposed]
      ensures interactable == old(interactable)
    {
      if !bound {
        return;
      }
      bound := false;
      steps := steps + [OnUnbind];
      if disposables != null {
        disposables.Dispose();
        steps := steps + [DisposeOwn];
      }
      disposables := null;
      if viewModel != null {
        viewModel.Dispose();
        steps := steps + [DisposeVm];
      }
      viewModel := null;
    }

    /** Bind: unbind whatever was bound, take the view-model and a fresh composite, initialise it, then OnBind. */
    method Bind(vm: VM.ViewModel)
      requires Valid()
      modifies this, Held(), vm`initialized, vm`trace
      ensures Valid() && bound && viewModel == vm
      ensures fresh(disposables) && disposables.items == [] && !disposables.isDisposed
      ensures steps == old(steps) + (if old(bound) then [OnUnbind, DisposeOwn, DisposeVm] else []) + [InitializeVm, OnBind(vm)]
      ensures old(bound) ==> old(disposables).isDisposed && old(viewModel).disposed
      ensures vm.initialized
      ensures vm != old(viewModel) && !old(vm.initialized) ==> vm.trace == old(vm.trace) + [VM.Initialize]
      ensures interactable == old(interactable)
    {
      if bound {
        Unbind();
      }
      viewModel := vm;
      disposables := new CD.CompositeDisposable();
      bound := true;
      vm.InitializeInternal();
      steps := steps + [InitializeVm, OnBind(vm)];
    }

    /** MonoBehaviour.OnDestroy: unbinds, so a bound view-model is disposed with its view. */
    method OnDestroy()
      requires Valid()
      modifies this, Held()
      ensures Valid() && !bound && viewModel == null
      ensures old(bound) ==> old(viewModel).disposed && steps == old(steps) + [OnUnbind, DisposeOwn, DisposeVm]
    {
      Unbind();
    }

    /** ViewBase.AnimateIn, or PopupViewBase.AnimateIn for a popup view. */
    method AnimateIn()
      requires Valid()
      modifies this`interactable, this`steps, if viewModel != null then {viewModel} else {}
      ensures interactable
      ensures steps == old(steps) + InSteps(isPopup, usesAnimator, viewModel != null)
      ensures viewModel != null ==> viewModel.trace == old(viewModel.trace) + AppearHooks(isPopup, usesAnimator)
      ensures viewModel != null ==> viewModel.initialized == old(viewModel.initialized) && viewModel.disposed == old(viewModel.disposed)
      ensures viewModel != null ==> viewModel.result == old(viewModel.result)
    {
      if isPopup {
        SetInteractable(false);
        CallHook(VM.Appearing);
        if usesAnimator {
          BaseAnimateIn();
        } else {
          steps := steps + [Animate(ScaleIn)];
          SetInteractable(true);
          CallHook(VM.Appeared);
        }
      } else {
        BaseAnimateIn();
      }
    }

    method BaseAnimateIn()
      modifies this`interactable, this`steps, if viewModel != null then {viewModel} else {}
      ensures interactable
      ensures steps == old(steps) + BaseInSteps(usesAnimator, viewModel != null)
      ensures viewModel != null ==> viewModel.trace == old(viewModel.trace) + [VM.Appearing, VM.Appeared]
      ensures viewModel != null ==> viewModel.initialized == old(viewModel.initialized) && viewModel.disposed == old(viewModel.disposed)
      ensures viewModel != null ==> viewModel.result == old(viewModel.result)
    {
      SetInteractable(false);
      CallHook(VM.Appearing);
      steps := steps + [Animate(if usesAnimator then AnimatorOpen else DelayThenFadeIn)];
      SetInteractable(true);
      CallHook(VM.Appeared);
    }

    /** ViewBase.AnimateOut, or PopupViewBase.AnimateOut for a popup view. */
    method AnimateOut()
      requires Valid()
      modifies this`interactable, this`steps, if viewModel != null then {viewModel} else {}
      ensures !interactable
      ensures steps == old(steps) + OutSteps(isPopup, usesAnimator, viewModel != null)
      ensures viewModel != null ==> viewModel.trace == old(viewModel.trace) + DisappearHooks(isPopup, usesAnimator)
      ensures viewModel != null ==> viewModel.initialized == old(viewModel.initialized) && viewModel.disposed == old(viewModel.disposed)
    {
      if isPopup {
        SetInteractable(false);
        CallHook(VM.Disappearing);
        if usesAnimator {
          BaseAnimateOut();
        } else {
          steps := steps + [Animate(ScaleOut)];
          CallHook(VM.Disappeared);
        }
      } else {
        BaseAnimateOut();
      }
    }

    method BaseAnimateOut()
      modifies this`interactable, this`steps, if viewModel != null then {viewModel} else {}
      ensures !interactable
      ensures steps == old(steps) + BaseOutSteps(usesAnimator, viewModel != null)
      ensures viewModel != null ==> viewModel.trace == old(viewModel.trace) + [VM.Disappearing, VM.Disappeared]
      ensures viewModel != null ==> viewModel.initialized == old(viewModel.initialized) && viewModel.disposed == old(viewModel.disposed)
    {
      SetInteractable(false);
      CallHook(VM.Disappearing);
      steps := steps + [Animate(if usesAnimator then AnimatorClose else FadeOut)];
      CallHook(VM.Disappeared);
    }

    method SetInteractable(on: bool)
      modifies this`interactable, this`steps
      ensures interactable == on && steps == old(steps) + [Interactable(on)]
    {
      interactable := on;
      steps := steps + [Interactable(on)];
    }

    /** `_viewModel?.Hook()`: the call happens only when a view-model is bound. */
    method CallHook(h: VM.Step)
      requires h in {VM.Appearing, VM.Appeared, VM.Disappearing, VM.Disappeared}
      modifies this`steps, if viewModel != null then {viewModel} else {}
      ensures steps == old(steps) + HookIf(viewModel != null, h)
      ensures viewModel != null ==> viewModel.trace == old(viewModel.trace) + [h]
      ensures viewModel != null ==> viewModel.initialized == old(viewModel.initialized) && viewModel.disposed == old(viewModel.disposed)
      ensures viewModel != null ==> viewModel.result == old(viewModel.result)
    {
      if viewModel != null {
        viewModel.RunHook(h);
        steps := steps + [Hook(h)];
      }
    }
  }
}
