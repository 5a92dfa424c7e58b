/** The assets table's load cycle: a re-entrancy guard over the state store that
    tells the load's own bookkeeping from a change of what is asked for. */
module AssetsTable {
  import opened Sequences
  import opened PagerStore
  import opened Signature

  /** What a fetch comes to. */
  datatype Answer = Page(rows: seq<string>, total: int) | Error(message: string)

  datatype Shown = Shown(view: View, answer: Answer)

  /** `loading` is the state the open load was begun for; `loads` counts fetches. */
  datatype Model = Model(store: State, loading: Option<View>, queued: bool, shown: Option<Shown>, loads: nat)

  datatype Event =
    | Operate(op: Op)       // a control of the table
    | Reload                // an explicit reload by the page
    | Settle(answer: Answer)

  function Current(m: Model): View {
    ViewOf(m.store)
  }

  function Request(m: Model): Model {
    if m.loading.None? then m.(loading := Some(Current(m)), loads := m.loads + 1)
    else if SameRequest(Current(m), m.loading.value) then m
    else m.(queued := true)
  }

  function Finished(m: Model): Model {
    var idle := m.(loading := None, queued := false);
    if m.queued then Request(idle) else idle
  }

  function Step(m: Model, ev: Event): Model {
    match ev
    case Operate(op) =>
      var moved := m.(store := Apply(m.store, op));
      if Emits(m.store, op) then Request(moved) else moved
    case Reload => Request(m)
    case Settle(answer) =>
      if m.loading.None? then m
      else
        var told := if answer.Page?
                    then Request(m.(store := Apply(m.store, SetPageInfo(PageInfo(Some(answer.total), None)))))
                    else m;
        Finished(told.(shown := Some(Shown(m.loading.value, answer))))
  }

  function Run(m: Model, evs: seq<Event>): Model
    decreases |evs|
  {
    if evs == [] then m else Run(Step(m, evs[0]), evs[1..])
  }

  /** The table as it is once mounted: the first load is open. */
  function Mounted(store: State): Model {
    Request(Model(store, None, false, None, 0))
  }

  // ─── The table itself ───

  class Table {
    const store: OpsTableState
    var loading: bool
    var reloadQueued: bool
    var loadingSignature: Option<Printed>
    var inFlight: Option<View>
    var shown: Option<Shown>
    ghost var loads: nat

    ghost function Observed(): Model
      reads this, store
    {
      Model(store.GetState(), inFlight, reloadQueued, shown, loads)
    }

    ghost predicate Valid()
      reads this, store
    {
      && store.mode == OffsetPaging
      && loading == inFlight.Some?
      && (loading ==> loadingSignature == Some(StateSignature(inFlight.value)))
      && (!loading ==> !reloadQueued)
    }

    constructor (store: OpsTableState)
      requires store.mode == OffsetPaging
      ensures Valid() && this.store == store
      ensures Observed() == Mounted(store.GetState())
    {
      this.store := store;
      loading, reloadQueued, loadingSignature := false, false, None;
      inFlight, shown, loads := None, None, 0;
      new;
      BeginReload();
    }

    /** `reload` up to its `await`. */
    method BeginReload()
      requires Valid()
      modifies this
      ensures Valid()
      ensures Observed() == Request(old(Observed()))
    {
      var snap := ViewOf(store.GetState());
      if loading {
        SignatureFaithful(snap, inFlight.value);
        if Some(StateSignature(snap)) == loadingSignature { return; }
        reloadQueued := true;
        return;
      }
      loading := true;
      loadingSignature := Some(StateSignature(snap));
      inFlight := Some(snap);
      loads := loads + 1;
    }

    /** A control acts on the store; the store's emit runs the subscription. */
    method OperateControl(op: Op)
      requires Valid()
      modifies this, store
      ensures Valid()
      ensures Observed() == Step(old(Observed()), Operate(op))
    {
      var emitted := store.Do(op);
      if emitted {
        BeginReload();
      }
    }

    /** The rest of `reload` once its fetch came to `answer`. */
    method SettleLoad(answer: Answer)
      requires Valid()
      modifies this, store
      ensures Valid()
      ensures Observed() == Step(old(Observed()), Settle(answer))
    {
      if !loading { return; }
      if answer.Page? {
        store.SetInfo(PageInfo(Some(answer.total), None));
        BeginReload();
      }
      shown := Some(Shown(inFlight.value, answer));
      loading := false;
      inFlight := None;
      if reloadQueued {
        reloadQueued := false;
        BeginReload();
      }
    }

    method Replay(evs: seq<Event>)
      requires Valid()
      modifies this, store
      ensures Valid()
      ensures Observed() == Run(old(Observed()), evs)
    {
      var i := 0;
      while i < |evs|
        invariant 0 <= i <= |evs|
        invariant Valid()
        invariant Run(Observed(), evs[i..]) == Run(old(Observed()), evs)
      {
        assert evs[i..][0] == evs[i] && evs[i..][1..] == evs[i + 1..];
        match evs[i] {
          case Operate(op) => OperateControl(op);
          case Reload => BeginReload();
          case Settle(answer) => SettleLoad(answer);
        }
        i := i + 1;
      }
    }
  }

  // ─── The last state asked for is the one that ends up rendered ───

  /** While a load is open it is for the current state or a re-run is queued;
      when none is, what is rendered was fetched for the current state. */
  ghost predicate Coherent(m: Model) {
    && (m.loading.Some? ==> SameRequest(Current(m), m.loading.value) || m.queued)
    && (m.loading.None? ==> !m.queued && m.shown.Some? && SameRequest(Current(m), m.shown.value.view))
  }

  lemma StepKeepsCoherent(m: Model, ev: Event)
    requires Coherent(m) && m.store.mode == OffsetPaging
    ensures Coherent(Step(m, ev)) && Step(m, ev).store.mode == OffsetPaging
  {
  }

  /** In every run of a mounted table, whenever no load is open the rendered
      outcome, rows or error, was fetched for the current sort, filters and page. */
  lemma {:induction false} RenderedIsCurrent(m: Model, evs: seq<Event>)
    requires Coherent(m) && m.store.mode == OffsetPaging
    ensures Coherent(Run(m, evs)) && Run(m, evs).store.mode == OffsetPaging
    decreases |evs|
  {
    if evs != [] {
      StepKeepsCoherent(m, evs[0]);
      RenderedIsCurrent(Step(m, evs[0]), evs[1..]);
    }
  }

  lemma MountedRunsAreCurrent(store: State, evs: seq<Event>)
    requires store.mode == OffsetPaging
    ensures var m := Run(Mounted(store), evs);
            m.loading.None? ==>
              && m.shown.Some?
              && var v := m.shown.value.view;
                 && v.filters == m.store.filters && v.offset == m.store.offset && v.pageSize == m.store.pageSize
                 && v.sort.direction == m.store.sort.direction
                 && (v.sort.columnKey == m.store.sort.columnKey
                     || (v.sort.columnKey in {None, Some("")} && m.store.sort.columnKey in {None, Some("")}))
    ensures 1 <= Run(Mounted(store), evs).loads <= 1 + Asks(evs)
  {
    RenderedIsCurrent(Mounted(store), evs);
    LoadsAreBounded(Mounted(store), evs);
    LoadsNeverFall(Mounted(store), evs);
  }

  lemma {:induction false} LoadsNeverFall(m: Model, evs: seq<Event>)
    ensures Run(m, evs).loads >= m.loads
    decreases |evs|
  {
    if evs != [] {
      LoadsNeverFall(Step(m, evs[0]), evs[1..]);
    }
  }

  /** What the table renders is what the open load's own answer brought: the view the
      load was begun for, with those rows or that error; a page's total is recorded.
      Nothing but an answer to an open load changes what is rendered. */
  lemma RendersTheAnswer(m: Model, ev: Event)
    requires Coherent(m) && m.store.mode == OffsetPaging
    ensures var n := Step(m, ev);
            && (ev.Settle? && m.loading.Some? ==>
                  && n.shown == Some(Shown(m.loading.value, ev.answer))
                  && n.store.total == if ev.answer.Page? then Some(ev.answer.total) else m.store.total)
            && (!(ev.Settle? && m.loading.Some?) ==> n.shown == m.shown)
            && (ev.Operate? && !ev.op.SetPageInfo? ==> n.store.total == m.store.total)
  {
  }

  function Asks(evs: seq<Event>): nat {
    if evs == [] then 0 else (if evs[0].Settle? then 0 else 1) + Asks(evs[1..])
  }

  /** The load's own bookkeeping never asks for another load: there are at most as
      many fetches as the initial one and the operator's changes and reloads. */
  lemma {:induction false} LoadsAreBounded(m: Model, evs: seq<Event>)
    requires Coherent(m) && m.store.mode == OffsetPaging
    ensures var n := Run(m, evs);
            n.loads + (if n.queued then 1 else 0) <= m.loads + (if m.queued then 1 else 0) + Asks(evs)
    decreases |evs|
  {
    if evs != [] {
      StepKeepsCoherent(m, evs[0]);
      LoadsAreBounded(Step(m, evs[0]), evs[1..]);
    }
  }

  /** Once input stops, at most two answers bring the table to rest. */
  lemma TwoAnswersSettle(m: Model, first: Answer, second: Answer)
    requires Coherent(m) && m.store.mode == OffsetPaging
    ensures Run(m, [Settle(first), Settle(second)]).loading.None?
  {
    var a := Step(m, Settle(first));
    StepKeepsCoherent(m, Settle(first));
    assert [Settle(first), Settle(second)][1..] == [Settle(second)];
    assert Run(a, [Settle(second)]) == Step(a, Settle(second));
  }

  /** Some event of the run asks for a reload while the store is off the open load. */
  ghost predicate AsksAnew(m: Model, evs: seq<Event>)
    decreases |evs|
  {
    evs != [] &&
    var n := Step(m, evs[0]);
    || ((evs[0].Reload? || (evs[0].Operate? && Emits(m.store, evs[0].op)))
        && n.loading.Some? && !SameRequest(Current(n), n.loading.value))
    || AsksAnew(n, evs[1..])
  }

  lemma {:induction false} QueuedExactly(m: Model, evs: seq<Event>)
    requires m.loading.Some? && forall ev :: ev in evs ==> !ev.Settle?
    ensures var n := Run(m, evs);
            n.loading == m.loading && n.loads == m.loads && (n.queued <==> m.queued || AsksAnew(m, evs))
    decreases |evs|
  {
    if evs != [] {
      assert evs[0] in evs;
      QueuedExactly(Step(m, evs[0]), evs[1..]);
    }
  }

  lemma {:induction false} RunSnoc(m: Model, evs: seq<Event>, ev: Event)
    ensures Run(m, evs + [ev]) == Step(Run(m, evs), ev)
    decreases |evs|
  {
    if evs == [] {
      assert [] + [ev] == [ev] && [ev][1..] == [];
    } else {
      assert (evs + [ev])[0] == evs[0] && (evs + [ev])[1..] == evs[1..] + [ev];
      RunSnoc(Step(m, evs[0]), evs[1..], ev);
    }
  }

  /** Whatever happens before the next answer, an explicit reload is answered by a
      load that begins no earlier than the call exactly when none was open, or one was
      already queued behind it, or the call or something after it asked for a state
      other than the open load's: else it is dropped. */
  lemma ReloadDroppedExactly(m: Model, mid: seq<Event>, answer: Answer)
    requires Coherent(m) && m.store.mode == OffsetPaging
    requires forall ev :: ev in mid ==> !ev.Settle?
    ensures Run(m, [Reload] + mid + [Settle(answer)]).loads > m.loads
       <==> m.loading.None? || m.queued || AsksAnew(m, [Reload] + mid)
  {
    var evs := [Reload] + mid;
    var asked := Step(m, Reload);
    assert evs[0] == Reload && evs[1..] == mid;
    RunSnoc(m, evs, Settle(answer));
    QueuedExactly(asked, mid);
    var n := Run(asked, mid);
    assert Run(m, evs) == n;
    StepKeepsCoherent(m, Reload);
    RenderedIsCurrent(asked, mid);
    AnswerBegins(n, answer);
  }

  /** An answer begins another load exactly when one is queued. */
  lemma AnswerBegins(m: Model, answer: Answer)
    requires Coherent(m) && m.loading.Some?
    requires m.store.mode == OffsetPaging
    ensures Step(m, Settle(answer)).loads == m.loads + (if m.queued then 1 else 0)
  {
  }
}
