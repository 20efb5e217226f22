/**
 * View-models: the one-shot initialise and dispose guards of ViewModelBase, and the
 * settle-once result of PopupViewModel, whose OnDispose override cancels a pending result.
 * The virtual hooks a subclass fills in are opaque; `trace` records which of them ran, in order.
 */
module ViewModels {
  import opened Lists
  import CD = CompositeDisposable

  /** The state of a UniTaskCompletionSource: pending, resolved with a value, or canceled. */
  datatype Completion<R> = Pending | Resolved(value: R) | Canceled

  /** TrySetResult: only a pending source takes the value. */
  function TrySetResult<R>(c: Completion<R>, v: R): Completion<R> {
    if c.Pending? then Resolved(v) else c
  }

  /** TrySetCanceled: only a pending source is canceled. */
  function TrySetCanceled<R>(c: Completion<R>): Completion<R> {
    if c.Pending? then Canceled else c
  }

  /** The ways a popup's result source can be poked: SetResult, Cancel, and Dispose (which cancels). */
  datatype Poke<R> = SetResultPoke(v: R) | CancelPoke | DisposePoke

  function Apply<R>(c: Completion<R>, p: Poke<R>): Completion<R> {
    match p
    case SetResultPoke(v) => TrySetResult(c, v)
    case CancelPoke => TrySetCanceled(c)
    case DisposePoke => TrySetCanceled(c)
  }

  function ApplyAll<R>(c: Completion<R>, ps: seq<Poke<R>>): Completion<R>
    decreases |ps|
  {
    if ps == [] then c else ApplyAll(Apply(c, ps[0]), ps[1..])
  }

  /** Once settled, no sequence of pokes changes the outcome. */
  lemma {:induction false} SettledIsFinal<R>(c: Completion<R>, ps: seq<Poke<R>>)
    requires !c.Pending?
    ensures ApplyAll(c, ps) == c
  {
    if ps != [] {
      SettledIsFinal(Apply(c, ps[0]), ps[1..]);
    }
  }

  /** A pending result settles on the first poke: to that value for SetResult, to canceled otherwise. */
  lemma FirstPokeWins<R>(ps: seq<Poke<R>>)
    requires ps != []
    ensures ApplyAll(Pending, ps) == (if ps[0].SetResultPoke? then Resolved(ps[0].v) else Canceled)
  {
    SettledIsFinal(Apply(Pending, ps[0]), ps[1..]);
  }

  /** The virtual hooks and internal steps of a view-model, as they run. */
  datatype Step = Initialize | Appearing | Appeared | Disappearing | Disappeared | OnDispose | OwnedDisposed

  /** A plain screen view-model, or a PopupViewModel whose result a caller may await. */
  datatype Kind = Plain | Popup

  class ViewModel {
    const kind: Kind
    /** The view-model's own `Disposables`. */
    const disposables: CD.CompositeDisposable
    var initialized: bool
    var disposed: bool
    var trace: seq<Step>
    /** The completion source of a PopupViewModel (stays pending for a plain one). */
    var result: Completion<int>

    /** Each one-shot step has run at most once, and exactly when its guard flag is set. */
    ghost predicate Valid()
      reads this
    {
      && (initialized <==> Initialize in trace)
      && (disposed <==> OnDispose in trace)
      && Occurrences(trace, Initialize) <= 1
      && Occurrences(trace, OnDispose) <= 1
    }

    constructor (kind: Kind)
      ensures Valid() && this.kind == kind && fresh(disposables)
      ensures !initialized && !disposed && trace == [] && result == Pending
      ensures disposables.items == [] && !disposables.isDisposed && disposables.disposeCalls == []
    {
      this.kind := kind;
      disposables := new CD.CompositeDisposable();
      initialized := false;
      disposed := false;
      trace := [];
      result := Pending;
    }

    /** Runs `Initialize` the first time only; the disposed flag plays no part. */
    method InitializeInternal()
      modifies this`initialized, this`trace
      ensures initialized
      ensures old(initialized) ==> trace == old(trace)
      ensures !old(initialized) ==> trace == old(trace) + [Initialize]
      ensures old(Valid()) ==> Valid()
    {
      if initialized {
        return;
      }
      initialized := true;
      trace := trace + [Initialize];
      OccurrencesAppend(old(trace), [Initialize], Initialize);
      OccurrencesAppend(old(trace), [Initialize], OnDispose);
      OccurrencesZero(old(trace), Initialize);
    }

    /** One of the four appearance hooks, called by the view that shows this view-model. */
    method RunHook(h: Step)
      requires h in {Appearing, Appeared, Disappearing, Disappeared}
      modifies this`trace
      ensures trace == old(trace) + [h]
      ensures old(Valid()) ==> Valid()
    {
      trace := trace + [h];
      OccurrencesAppend(old(trace), [h], Initialize);
      OccurrencesAppend(old(trace), [h], OnDispose);
    }

    /** The first call runs `OnDispose` and then disposes `Disposables`; later calls do nothing. */
    method Dispose()
      modifies this`disposed, this`trace, this`result, disposables
      ensures disposed
      ensures old(disposed) ==> trace == old(trace) && result == old(result) && unchanged(disposables)
      ensures !old(disposed) ==> trace == old(trace) + [OnDispose, OwnedDisposed]
      ensures !old(disposed) ==> result == (if kind == Popup then TrySetCanceled(old(result)) else old(result))
      ensures !old(disposed) ==> disposables.isDisposed
      ensures !old(disposed) && !old(disposables.isDisposed) ==>
        disposables.items == [] && disposables.disposeCalls == old(disposables.disposeCalls) + Reverse(old(disposables.items))
      ensures old(Valid()) ==> Valid()
    {
      if disposed {
        return;
      }
      disposed := true;
      OnDisposeHook();
      disposables.Dispose();
      trace := trace + [OwnedDisposed];
      OccurrencesAppend(old(trace), [OnDispose, OwnedDisposed], Initialize);
      OccurrencesAppend(old(trace), [OnDispose, OwnedDisposed], OnDispose);
      OccurrencesZero(old(trace), OnDispose);
    }

    /** The `OnDispose` override: a popup view-model cancels a still-pending result. */
    method OnDisposeHook()
      modifies this`trace, this`result
      ensures trace == old(trace) + [OnDispose]
      ensures result == (if kind == Popup then TrySetCanceled(old(result)) else old(result))
    {
      trace := trace + [OnDispose];
      if kind == Popup {
        result := TrySetCanceled(result);
      }
    }

    /** PopupViewModel.SetResult. */
    method SetResult(v: int)
      modifies this`result
      ensures result == TrySetResult(old(result), v)
    {
      result := TrySetResult(result, v);
    }

    /** PopupViewModel.Cancel. */
    method Cancel()
      modifies this`result
      ensures result == TrySetCanceled(old(result))
    {
      result := TrySetCanceled(result);
    }
  }
}
