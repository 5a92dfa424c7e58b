/** The audit table's load cycle: every request that finds a load open is queued,
    and the table's own page-info emit is masked. */
module AuditTable {
  import opened Sequences
  import opened PagerStore
  import opened Signature

  datatype Answer = Page(rows: seq<string>, total: int) | Error(message: string)

  /** An open load: the state it was begun for, and how many requests had been
      made by then, its own included. */
  datatype Load = Load(view: View, asked: nat)

  datatype Shown = Shown(load: Load, answer: Answer)

  datatype Model = Model(store: State, loading: Option<Load>, queued: bool, shown: Option<Shown>,
                         asks: nat, loads: nat)

  datatype Event =
    | Operate(op: Op)
    | Reload
    | Settle(answer: Answer)

  function Current(m: Model): View {
    ViewOf(m.store)
  }

  function Begin(m: Model): Model {
    m.(loading := Some(Load(Current(m), m.asks)), loads := m.loads + 1)
  }

  function Ask(m: Model): Model {
    var asked := m.(asks := m.asks + 1);
    if m.loading.None? then Begin(asked) else asked.(queued := true)
  }

  function Step(m: Model, ev: Event): Model {
    match ev
    case Operate(op) =>
      var moved := m.(store := Apply(m.store, op));
      if Emits(m.store, op) then Ask(moved) else moved
    case Reload => Ask(m)
    case Settle(answer) =>
      if m.loading.None? then m
      else
        var told := if answer.Page?
                    then m.(store := Apply(m.store, SetPageInfo(PageInfo(Some(answer.total), None)))) else m;
        var idle := told.(shown := Some(Shown(m.loading.value, answer)), loading := None, queued := false);
        if m.queued then Begin(idle) else idle
  }

  function Run(m: Model, evs: seq<Event>): Model
    decreases |evs|
  {
    if evs == [] then m else Run(Step(m, evs[0]), evs[1..])
  }

  function Mounted(store: State): Model {
    Ask(Model(store, None, false, None, 0, 0))
  }

  // ─── The table itself ───

  class Table {
    const store: OpsTableState
    var loading: bool
    var queued: bool
    var applyingPageInfo: bool
    var inFlight: Option<Load>
    var shown: Option<Shown>
    var asks: nat     // requests so far, for the record
    var loads: nat    // fetches so far, for the record

    ghost function Observed(): Model
      reads this, store
    {
      Model(store.GetState(), inFlight, queued, shown, asks, loads)
    }

    ghost predicate Valid()
      reads this, store
    {
      && store.mode == OffsetPaging
      && loading == inFlight.Some?
      && !applyingPageInfo
    }

    constructor (store: OpsTableState)
      requires store.mode == OffsetPaging
      ensures Valid() && this.store == store
      ensures Observed() == Mounted(store.GetState())
    {
      this.store := store;
      loading, queued, applyingPageInfo := false, false, false;
      inFlight, shown, asks, loads := None, None, 0, 0;
      new;
      BeginRequested();
    }

    /** `reload` up to its `await`. */
    method BeginReload()
      requires loading == inFlight.Some?
      modifies this`loading, this`queued, this`inFlight, this`loads
      ensures loading == inFlight.Some?
      ensures Observed() == if old(loading) then old(Observed()).(queued := true) else Begin(old(Observed()))
    {
      if loading {
        queued := true;
        return;
      }
      loading := true;
      inFlight := Some(Load(ViewOf(store.GetState()), asks));
      loads := loads + 1;
    }

    /** A request for a reload, from the page or from the subscription. */
    method BeginRequested()
      requires Valid()
      modifies this
      ensures Valid()
      ensures Observed() == Ask(old(Observed()))
    {
      asks := asks + 1;
      BeginReload();
    }

    /** The subscription to the store. */
    method OnEmit()
      requires loading == inFlight.Some? && store.mode == OffsetPaging
      modifies this
      ensures loading == inFlight.Some? && applyingPageInfo == old(applyingPageInfo)
      ensures Observed() == if old(applyingPageInfo) then old(Observed()) else Ask(old(Observed()))
    {
      if applyingPageInfo { return; }
      BeginRequested();
    }

    method OperateControl(op: Op)
      requires Valid()
      modifies this, store
      ensures Valid()
      ensures Observed() == Step(old(Observed()), Operate(op))
    {
      var emitted := store.Do(op);
      if emitted {
        OnEmit();
      }
    }

    /** The rest of `reload` once its fetch came to `answer`. */
    method SettleLoad(answer: Answer)
      requires Valid()
      modifies this, store
      ensures Valid()
      ensures Observed() == Step(old(Observed()), Settle(answer))
    {
      if !loading { return; }
      if answer.Page? {
        applyingPageInfo := true;
        store.SetInfo(PageInfo(Some(answer.total), None));
        OnEmit();
        applyingPageInfo := false;
      }
      shown := Some(Shown(inFlight.value, answer));
      loading := false;
      inFlight := None;
      if queued {
        queued := false;
        BeginReload();
      }
    }

    method Replay(evs: seq<Event>)
      requires Valid()
      modifies this, store
      ensures Valid()
      ensures Observed() == Run(old(Observed()), evs)
    {
      var i := 0;
      while i < |evs|
        invariant 0 <= i <= |evs|
        invariant Valid()
        invariant Run(Observed(), evs[i..]) == Run(old(Observed()), evs)
      {
        assert evs[i..][0] == evs[i] && evs[i..][1..] == evs[i + 1..];
        match evs[i] {
          case Operate(op) => OperateControl(op);
          case Reload => BeginRequested();
          case Settle(answer) => SettleLoad(answer);
        }
        i := i + 1;
      }
    }
  }

  // ─── No request is lost ───

  /** The load covers every request made so far and is for the current state. */
  predicate UpToDate(m: Model, load: Load) {
    load.asked == m.asks && load.view == Current(m)
  }

  /** An open load is up to date or a re-run is queued; with none open, what is
      rendered came from an up-to-date load. */
  ghost predicate Coherent(m: Model) {
    && m.store.mode == OffsetPaging
    && (m.loading.Some? ==> UpToDate(m, m.loading.value) || m.queued)
    && (m.loading.None? ==> !m.queued && m.shown.Some? && UpToDate(m, m.shown.value.load))
  }

  lemma StepKeepsCoherent(m: Model, ev: Event)
    requires Coherent(m)
    ensures Coherent(Step(m, ev))
  {
  }

  /** In every run, whenever no load is open the rendered outcome came from a load
      begun at or after the last request, for the state on the controls. */
  lemma {:induction false} EveryRequestIsServed(m: Model, evs: seq<Event>)
    requires Coherent(m)
    ensures Coherent(Run(m, evs))
    decreases |evs|
  {
    if evs != [] {
      StepKeepsCoherent(m, evs[0]);
      EveryRequestIsServed(Step(m, evs[0]), evs[1..]);
    }
  }

  lemma MountedRunsAreServed(store: State, evs: seq<Event>)
    requires store.mode == OffsetPaging
    ensures var m := Run(Mounted(store), evs);
            && (m.loading.None? ==>
                  && m.shown.Some? && m.shown.value.load.asked == m.asks
                  && var v := m.shown.value.load.view;
                     && v.sort == m.store.sort && v.filters == m.store.filters
                     && v.offset == m.store.offset && v.pageSize == m.store.pageSize)
            && m.loads <= m.asks <= 1 + Requests(evs)
  {
    EveryRequestIsServed(Mounted(store), evs);
    LoadsAreBounded(Mounted(store), evs);
  }

  /** What the table renders is what the open load's own answer brought; nothing but an
      answer to an open load changes it. */
  lemma RendersTheAnswer(m: Model, ev: Event)
    ensures var n := Step(m, ev);
            && (ev.Settle? && m.loading.Some? ==> n.shown == Some(Shown(m.loading.value, ev.answer)))
            && (ev.Settle? && m.loading.Some? && ev.answer.Page? && m.store.mode == OffsetPaging ==>
                  n.store.total == Some(ev.answer.total))
            && (!(ev.Settle? && m.loading.Some?) ==> n.shown == m.shown)
  {
  }

  /** The operator's changes and the reload calls of a run. */
  function Requests(evs: seq<Event>): nat {
    if evs == [] then 0 else (if evs[0].Settle? then 0 else 1) + Requests(evs[1..])
  }

  /** The self-emit of a settled load neither starts nor queues a load: every
      fetch is paid for by a request of its own. */
  lemma {:induction false} LoadsAreBounded(m: Model, evs: seq<Event>)
    requires Coherent(m) && m.loads + (if m.queued then 1 else 0) <= m.asks
    ensures var n := Run(m, evs);
            && n.loads + (if n.queued then 1 else 0) <= n.asks
            && n.asks <= m.asks + Requests(evs)
    decreases |evs|
  {
    if evs != [] {
      StepKeepsCoherent(m, evs[0]);
      LoadsAreBounded(Step(m, evs[0]), evs[1..]);
    }
  }

  lemma {:induction false} QueueIsKept(m: Model, evs: seq<Event>)
    requires m.loading.Some? && forall ev :: ev in evs ==> !ev.Settle?
    ensures var n := Run(m, evs);
            n.loading.Some? && n.loads == m.loads && (m.queued ==> n.queued)
    decreases |evs|
  {
    if evs != [] {
      assert evs[0] in evs;
      QueueIsKept(Step(m, evs[0]), evs[1..]);
    }
  }

  lemma {:induction false} RunSnoc(m: Model, evs: seq<Event>, ev: Event)
    ensures Run(m, evs + [ev]) == Step(Run(m, evs), ev)
    decreases |evs|
  {
    if evs == [] {
      assert [] + [ev] == [ev] && [ev][1..] == [];
    } else {
      assert (evs + [ev])[0] == evs[0] && (evs + [ev])[1..] == evs[1..] + [ev];
      RunSnoc(Step(m, evs[0]), evs[1..], ev);
    }
  }

  /** Unlike the assets table, a reload call is always answered by a load that begins
      no earlier than the call, whatever happens before the next answer. */
  lemma ReloadNeverDropped(m: Model, mid: seq<Event>, answer: Answer)
    requires Coherent(m) && forall ev :: ev in mid ==> !ev.Settle?
    ensures Run(m, [Reload] + mid + [Settle(answer)]).loads > m.loads
  {
    var evs := [Reload] + mid;
    assert evs[0] == Reload && evs[1..] == mid;
    RunSnoc(m, evs, Settle(answer));
    QueueIsKept(Step(m, Reload), mid);
    assert Run(m, evs) == Run(Step(m, Reload), mid);
  }

  /** Once input stops, two answers bring the table to rest. */
  lemma TwoAnswersSettle(m: Model, first: Answer, second: Answer)
    requires Coherent(m)
    ensures Run(m, [Settle(first), Settle(second)]).loading.None?
  {
    var a := Step(m, Settle(first));
    assert [Settle(first), Settle(second)][1..] == [Settle(second)];
    assert Run(a, [Settle(second)]) == Step(a, Settle(second));
  }
}
