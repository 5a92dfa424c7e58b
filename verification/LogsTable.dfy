/** The logs table's load cycle: any change that arrives while a load is open is
    dropped, and a cursor from the URL is spliced into the first request. */
module LogsTable {
  import opened Sequences
  import opened PagerStore
  import opened Text

  /** What a request asks for: the query and the page's cursor. */
  datatype Ask = Ask(query: Query, cursor: Option<Cursor>)

  datatype Answer = Page(rows: seq<string>, nextCursor: Option<Cursor>) | Error(message: string)

  datatype Shown = Shown(ask: Ask, answer: Answer)

  /** `storeEmpty` is the table's verdict on whether anything was ever logged. */
  datatype Model = Model(store: State, urlCursor: Option<Cursor>, applied: bool,
                         loading: Option<Ask>, shown: Option<Shown>, storeEmpty: Option<bool>)

  datatype Event =
    | Operate(op: Op)
    | Reload
    | Settle(answer: Answer)

  function Wanted(m: Model): Ask {
    Ask(QueryOf(m.store), m.store.cursor)
  }

  /** The first request honours the URL's cursor if the store has none. */
  function Effective(m: Model): Ask {
    if !m.applied && m.urlCursor.Some? && m.urlCursor.value != "" && m.store.cursor.None?
    then Wanted(m).(cursor := m.urlCursor) else Wanted(m)
  }

  predicate IsSet(filters: map<string, string>, name: string) {
    name in filters && Trim(filters[name]) != ""
  }

  /** The request narrows nothing: the newest page of the whole store. */
  predicate IsUnfilteredFirstPage(ask: Ask) {
    && (ask.cursor.None? || ask.cursor.value == "")
    && !IsSet(ask.query.filters, "from") && !IsSet(ask.query.filters, "to") && !IsSet(ask.query.filters, "q")
  }

  function Verdict(now: Option<bool>, ask: Ask, rows: seq<string>): Option<bool> {
    if rows != [] then Some(false) else if IsUnfilteredFirstPage(ask) then Some(true) else now
  }

  function Request(m: Model): Model {
    if m.loading.Some? then m else m.(loading := Some(Effective(m)), applied := true)
  }

  function Step(m: Model, ev: Event): Model {
    match ev
    case Operate(op) =>
      var moved := m.(store := Apply(m.store, op));
      if Emits(m.store, op) then Request(moved) else moved
    case Reload => Request(m)
    case Settle(answer) =>
      if m.loading.None? then m
      else
        var told := if answer.Page?
                    then m.(store := Apply(m.store, SetPageInfo(PageInfo(None, answer.nextCursor)))) else m;
        told.(shown := Some(Shown(m.loading.value, answer)), loading := None,
              storeEmpty := if answer.Page? then Verdict(m.storeEmpty, m.loading.value, answer.rows)
                            else m.storeEmpty)
  }

  function Run(m: Model, evs: seq<Event>): Model
    decreases |evs|
  {
    if evs == [] then m else Run(Step(m, evs[0]), evs[1..])
  }

  function Mounted(store: State, urlCursor: Option<Cursor>): Model {
    Request(Model(store, urlCursor, false, None, None, None))
  }

  // ─── The table itself ───

  class Table {
    const store: OpsTableState
    const initialCursorFromUrl: Option<Cursor>
    var initialCursorApplied: bool
    var loading: bool
    var inFlight: Option<Ask>
    var shown: Option<Shown>
    var storeEmpty: Option<bool>

    ghost function Observed(): Model
      reads this, store
    {
      Model(store.GetState(), initialCursorFromUrl, initialCursorApplied, inFlight, shown, storeEmpty)
    }

    ghost predicate Valid()
      reads this, store
    {
      store.mode == CursorPaging && loading == inFlight.Some?
    }

    constructor (store: OpsTableState, urlCursor: Option<Cursor>)
      requires store.mode == CursorPaging
      ensures Valid() && this.store == store
      ensures Observed() == Mounted(store.GetState(), urlCursor)
    {
      this.store, this.initialCursorFromUrl := store, urlCursor;
      initialCursorApplied, loading, inFlight, shown, storeEmpty := false, false, None, None, None;
      new;
      BeginReload();
    }

    /** `reload` up to its `await`. */
    method BeginReload()
      requires Valid()
      modifies this
      ensures Valid()
      ensures Observed() == Request(old(Observed()))
    {
      if loading { return; }
      loading := true;
      var cursor := store.cursor;
      if !initialCursorApplied && initialCursorFromUrl.Some? && initialCursorFromUrl.value != ""
         && store.cursor.None? {
        cursor := initialCursorFromUrl;
      }
      initialCursorApplied := true;
      inFlight := Some(Ask(QueryOf(store.GetState()), cursor));
    }

    method OperateControl(op: Op)
      requires Valid()
      modifies this, store
      ensures Valid()
      ensures Observed() == Step(old(Observed()), Operate(op))
    {
      var emitted := store.Do(op);
      if emitted {
        BeginReload();
      }
    }

    /** The rest of `reload` once its fetch came to `answer`. */
    method SettleLoad(answer: Answer)
      requires Valid()
      modifies this, store
      ensures Valid()
      ensures Observed() == Step(old(Observed()), Settle(answer))
    {
      if !loading { return; }
      if answer.Page? {
        store.SetInfo(PageInfo(None, answer.nextCursor));
        BeginReload();
        if answer.rows != [] {
          storeEmpty := Some(false);
        } else if IsUnfilteredFirstPage(inFlight.value) {
          storeEmpty := Some(true);
        }
      }
      shown := Some(Shown(inFlight.value, answer));
      loading := false;
      inFlight := None;
    }

    method Replay(evs: seq<Event>)
      requires Valid()
      modifies this, store
      ensures Valid()
      ensures Observed() == Run(old(Observed()), evs)
    {
      var i := 0;
      while i < |evs|
        invariant 0 <= i <= |evs|
        invariant Valid()
        invariant Run(Observed(), evs[i..]) == Run(old(Observed()), evs)
      {
        assert evs[i..][0] == evs[i] && evs[i..][1..] == evs[i + 1..];
        match evs[i] {
          case Operate(op) => OperateControl(op);
          case Reload => BeginReload();
          case Settle(answer) => SettleLoad(answer);
        }
        i := i + 1;
      }
    }
  }

  // ─── What the dropped changes cost ───

  /** A filter changed while the first load is open: the table comes to rest on
      rows fetched for the filters the operator has already left. */
  lemma ChangeInFlightIsLost(store: State, name: string, value: string, answer: Answer)
    requires store.mode == CursorPaging && value != ""
    requires name !in store.filters || store.filters[name] != value
    ensures var m := Run(Mounted(store, None), [Operate(SetFilter(name, value)), Settle(answer)]);
            && m.loading.None? && m.shown.Some?
            && m.shown.value.ask.query != QueryOf(m.store)
  {
    var first, second := Operate(SetFilter(name, value)), Settle(answer);
    assert [first, second][1..] == [second];
    var m := Step(Mounted(store, None), first);
    assert Run(m, [second]) == Step(m, second);
    assert name in m.store.filters && m.store.filters[name] == value;
  }

  /** The answers of a run are the server's for what was asked. */
  predicate Served(m: Model, ev: Event, next: Successor) {
    ev.Settle? && ev.answer.Page? && m.loading.Some? ==>
      ev.answer.nextCursor == next(m.loading.value.query, m.loading.value.cursor)
  }

  /** While a load is open the operator does nothing that moves the table off what
      is being asked for: refused page turns and changes that change nothing are fine. */
  predicate Waits(m: Model, ev: Event) {
    ev.Operate? ==> !ev.op.SetPageInfo? && (m.loading.Some? ==> Wanted(Step(m, ev)) == Wanted(m))
  }

  ghost predicate GoodRun(m: Model, evs: seq<Event>, next: Successor)
    decreases |evs|
  {
    evs == [] || (Served(m, evs[0], next) && Waits(m, evs[0]) && GoodRun(Step(m, evs[0]), evs[1..], next))
  }

  /** The open load, and else the rendered rows, are for what the store is on. */
  ghost predicate InStep(m: Model, next: Successor) {
    && m.store.mode == CursorPaging && m.applied && ChainOk(m.store, next)
    && (m.loading.Some? ==> m.loading.value == Wanted(m))
    && (m.loading.None? ==> m.shown.Some? && m.shown.value.ask == Wanted(m))
  }

  /** An event leaves the table in step if and only if it does not move the store
      off an open load: that guard is all that separates this table from the others. */
  lemma InStepExactly(m: Model, ev: Event, next: Successor)
    requires InStep(m, next) && Served(m, ev, next)
    requires ev.Operate? ==> !ev.op.SetPageInfo?
    ensures InStep(Step(m, ev), next) <==> Waits(m, ev)
  {
    hide ChainOk;
    match ev
    case Operate(op) => ChainStep(m.store, op, next);
    case Reload =>
    case Settle(answer) =>
      if m.loading.Some? && answer.Page? {
        ChainStep(m.store, SetPageInfo(PageInfo(None, answer.nextCursor)), next);
      }
  }

  /** Without a deep link and with an operator who waits, the same theorem holds
      as for the other tables, and the trail is the server's chain. */
  lemma {:induction false} WaitingRunsStayInStep(m: Model, evs: seq<Event>, next: Successor)
    requires InStep(m, next) && GoodRun(m, evs, next)
    ensures InStep(Run(m, evs), next)
    decreases |evs|
  {
    if evs != [] {
      InStepExactly(m, evs[0], next);
      WaitingRunsStayInStep(Step(m, evs[0]), evs[1..], next);
    }
  }

  lemma MountedWaitingRuns(store: State, evs: seq<Event>, next: Successor)
    requires store == FirstPage(store) && store.mode == CursorPaging
    requires GoodRun(Mounted(store, None), evs, next)
    ensures var m := Run(Mounted(store, None), evs);
            && (m.loading.None? ==>
                  && m.shown.Some? && m.shown.value.ask.cursor == m.store.cursor
                  && m.shown.value.ask.query.sort == m.store.sort
                  && m.shown.value.ask.query.filters == m.store.filters)
            && m.store.cursor == PageAt(QueryOf(m.store), next, PageIndex(m.store))
  {
    WaitingRunsStayInStep(Mounted(store, None), evs, next);
    var m := Run(Mounted(store, None), evs);
    ChainIsIndex(m.store, next, |m.store.prevStack|);
  }

  /** An operation and an answer later the rendered rows are current exactly when
      no load was open or the operation did not move the store off it. */
  lemma DroppedExactly(m: Model, op: Op, answer: Answer, next: Successor)
    requires InStep(m, next) && !op.SetPageInfo?
    requires Served(Step(m, Operate(op)), Settle(answer), next)
    ensures var n := Run(m, [Operate(op), Settle(answer)]);
            && n.loading.None? && n.shown.Some?
            && (n.shown.value.ask == Wanted(n) <==> Waits(m, Operate(op)))
  {
    var first, second := Operate(op), Settle(answer);
    assert [first, second][1..] == [second];
    assert Run(Step(m, first), [second]) == Step(Step(m, first), second);
  }

  /** And the cursor chain survives an operation made while a load is open and the
      server's own answer to that load exactly when the operation did not move the
      store off it, or the answer brings no cursor, or brings the very cursor that
      follows the page now shown. */
  lemma ChainSurvivesExactly(m: Model, op: Op, answer: Answer, next: Successor)
    requires InStep(m, next) && m.loading.Some? && !op.SetPageInfo?
    requires Served(Step(m, Operate(op)), Settle(answer), next)
    ensures var moved := Step(m, Operate(op));
            ChainOk(Step(moved, Settle(answer)).store, next) <==>
              || Waits(m, Operate(op))
              || answer.Error? || answer.nextCursor.None?
              || answer.nextCursor == next(QueryOf(moved.store), moved.store.cursor)
  {
    ChainStep(m.store, op, next);
  }

  lemma RunCons(m: Model, e: Event, rest: seq<Event>)
    ensures Run(m, [e] + rest) == Run(Step(m, e), rest)
  {
    assert ([e] + rest)[1..] == rest;
  }

  lemma RunThree(m: Model, a: Event, b: Event, c: Event)
    ensures Run(m, [a, b, c]) == Step(Step(Step(m, a), b), c)
  {
    RunCons(m, a, [b, c]);
    RunCons(Step(m, a), b, [c]);
    RunCons(Step(Step(m, a), b), c, []);
    assert [a] + [b, c] == [a, b, c] && [b] + [c] == [b, c] && [c] + [] == [c];
  }

  /** One such operation is Previous, on any page whose successor's successor is
      another page: Next then lands, under the same page index, on the page behind
      the one whose load was open, though every answer was the server's own. */
  lemma PreviousInFlightSkipsAPage(m: Model, next: Successor, rows: seq<string>)
    requires InStep(m, next) && m.loading.Some? && CanPrev(m.store)
    requires var after := next(QueryOf(m.store), m.store.cursor); after.Some? && after != m.store.cursor
    ensures var after := next(QueryOf(m.store), m.store.cursor);
            var answer := Settle(Page(rows, after));
            var n := Step(Step(m, Operate(PrevPage)), answer);
            var turned := Step(n, Operate(NextPage)).store;
            && Served(Step(m, Operate(PrevPage)), answer, next) && !ChainOk(n.store, next)
            && turned.cursor == after && PageIndex(turned) == PageIndex(m.store)
  {
    hide ChainOk;
    var after := next(QueryOf(m.store), m.store.cursor);
    LastLink(m.store, next);
    ChainSurvivesExactly(m, PrevPage, Page(rows, after), next);
  }

  lemma LastLink(s: State, next: Successor)
    requires ChainOk(s, next) && s.prevStack != []
    ensures s.cursor == next(QueryOf(s), s.prevStack[|s.prevStack| - 1])
  {
    var n := |s.prevStack| - 1;
    assert Trail(s)[n + 1] == s.cursor && Trail(s)[n] == s.prevStack[n];
  }

  /** A deep link: after its page is shown, Next and Previous come back to the
      first page, not to the page the link named, whatever Next's load comes to. */
  lemma DeepLinkIsNotRestored(store: State, url: Cursor, rows: seq<string>, after: Cursor, answer: Answer)
    requires store == FirstPage(store) && store.mode == CursorPaging && url != ""
    ensures var landed := Step(Mounted(store, Some(url)), Settle(Page(rows, Some(after))));
            && landed.shown == Some(Shown(Ask(QueryOf(store), Some(url)), Page(rows, Some(after))))
            && var back := Run(landed, [Operate(NextPage), Settle(answer), Operate(PrevPage)]);
               && PageIndex(back.store) == PageIndex(landed.store)
               && back.loading == Some(Ask(QueryOf(store), None))
  {
    var landed := Step(Mounted(store, Some(url)), Settle(Page(rows, Some(after))));
    RunThree(landed, Operate(NextPage), Settle(answer), Operate(PrevPage));
  }

  /** The store's trail is the server's chain after the deep link's own answer exactly
      when the answer failed, brought no cursor, or brought the one that follows the
      first page: the answer is recorded as that page's. */
  lemma DeepLinkChainExactly(store: State, url: Cursor, answer: Answer, next: Successor)
    requires store == FirstPage(store) && store.mode == CursorPaging && url != ""
    requires Served(Mounted(store, Some(url)), Settle(answer), next)
    ensures var landed := Step(Mounted(store, Some(url)), Settle(answer));
            ChainOk(landed.store, next) <==>
              || answer.Error? || answer.nextCursor.None?
              || answer.nextCursor == next(QueryOf(store), None)
  {
  }

  /** The server never hands out the deep link's own cursor. */
  predicate NeverHands(ev: Event, url: Cursor) {
    && (ev.Settle? && ev.answer.Page? ==> ev.answer.nextCursor != Some(url))
    && (ev.Operate? ==> !ev.op.SetPageInfo?)
  }

  predicate Forgotten(m: Model, url: Cursor) {
    && m.applied && m.store.mode == CursorPaging
    && Some(url) !in Trail(m.store) && m.store.nextCursor != Some(url)
    && (m.loading.Some? ==> m.loading.value.cursor != Some(url))
  }

  lemma StoreForgets(s: State, op: Op, url: Cursor)
    requires s.mode == CursorPaging && Some(url) !in Trail(s) && s.nextCursor != Some(url)
    requires op.SetPageInfo? ==> op.info.nextCursor != Some(url)
    ensures var n := Apply(s, op);
            n.mode == CursorPaging && Some(url) !in Trail(n) && n.nextCursor != Some(url)
  {
    if op.NextPage? && CanNext(s) {
      assert Trail(Apply(s, op)) == Trail(s) + [s.nextCursor];
    } else if op.PrevPage? && CanPrev(s) {
      assert Trail(Apply(s, op)) == Trail(s)[..|s.prevStack|];
    }
  }

  lemma StepForgets(m: Model, ev: Event, url: Cursor)
    requires Forgotten(m, url) && NeverHands(ev, url)
    ensures Forgotten(Step(m, ev), url)
  {
    hide Apply, Emits;
    match ev
    case Operate(op) => StoreForgets(m.store, op, url);
    case Reload =>
    case Settle(answer) =>
      if answer.Page? {
        StoreForgets(m.store, SetPageInfo(PageInfo(None, answer.nextCursor)), url);
      }
    var after := Step(m, ev).store;
    assert after.cursor == Trail(after)[|after.prevStack|];
  }

  lemma {:induction false} RunForgets(m: Model, evs: seq<Event>, url: Cursor)
    requires Forgotten(m, url) && forall ev :: ev in evs ==> NeverHands(ev, url)
    ensures Forgotten(Run(m, evs), url)
    decreases |evs|
  {
    if evs != [] {
      StepForgets(m, evs[0], url);
      RunForgets(Step(m, evs[0]), evs[1..], url);
    }
  }

  /** More than that: once its page is shown, no run of the table asks for the
      deep-linked page again as long as no answer brings the link's own cursor. */
  lemma DeepLinkIsAskedOnce(store: State, url: Cursor, answer: Answer, evs: seq<Event>)
    requires store == FirstPage(store) && store.mode == CursorPaging && url != ""
    requires NeverHands(Settle(answer), url) && forall ev :: ev in evs ==> NeverHands(ev, url)
    ensures Mounted(store, Some(url)).loading == Some(Ask(QueryOf(store), Some(url)))
    ensures var m := Run(Step(Mounted(store, Some(url)), Settle(answer)), evs);
            m.loading.Some? ==> m.loading.value.cursor != Some(url)
  {
    RunForgets(Step(Mounted(store, Some(url)), Settle(answer)), evs, url);
  }

  // ─── The two empty states ───

  /** An event, and whether anything had been logged by then. */
  datatype Timed = Timed(event: Event, written: bool)

  /** The log only grows. A page with rows means something had been written by the
      time it arrived; an empty unfiltered first page means nothing had been when its
      load began, though something may have been since. `begun` is whether anything
      had been written when the open load began. */
  ghost predicate TruthfulRun(m: Model, evs: seq<Timed>, written: bool, begun: bool)
    decreases |evs|
  {
    evs == [] ||
    var t := evs[0];
    && (written ==> t.written)
    && (t.event.Settle? && t.event.answer.Page? && m.loading.Some? ==>
          && (t.event.answer.rows != [] ==> t.written)
          && (t.event.answer.rows == [] && IsUnfilteredFirstPage(m.loading.value) ==> !begun))
    && TruthfulRun(Step(m, t.event), evs[1..], t.written, BegunAfter(m, t, begun))
  }

  function BegunAfter(m: Model, t: Timed, begun: bool): bool {
    if m.loading.None? then t.written else begun
  }

  /** The event brings an answer the verdict is drawn from. */
  predicate Conclusive(m: Model, ev: Event) {
    ev.Settle? && ev.answer.Page? && m.loading.Some? &&
    (ev.answer.rows != [] || IsUnfilteredFirstPage(m.loading.value))
  }

  /** Whether anything had been written when the last conclusive load of the run
      began; `dated` says so for the loads before it. */
  function Dated(m: Model, evs: seq<Timed>, begun: bool, dated: bool): bool
    decreases |evs|
  {
    if evs == [] then dated
    else Dated(Step(m, evs[0].event), evs[1..], BegunAfter(m, evs[0], begun),
               if Conclusive(m, evs[0].event) then begun else dated)
  }

  function RunTimed(m: Model, evs: seq<Timed>): Model
    decreases |evs|
  {
    if evs == [] then m else RunTimed(Step(m, evs[0].event), evs[1..])
  }

  /** The verdict is sound in every run, whatever filters and failures come between:
      "nothing was ever logged" is only said when nothing had been when the last
      conclusive load began, and the opposite is only held once something was. */
  lemma {:induction false} EmptyVerdictIsSound(m: Model, evs: seq<Timed>, written: bool, begun: bool, dated: bool)
    requires TruthfulRun(m, evs, written, begun)
    requires m.storeEmpty == Some(true) ==> !dated
    requires m.storeEmpty == Some(false) ==> written
    ensures var n := RunTimed(m, evs);
            && (n.storeEmpty == Some(true) ==> !Dated(m, evs, begun, dated))
            && (n.storeEmpty == Some(false) ==> if evs == [] then written else evs[|evs| - 1].written)
    decreases |evs|
  {
    if evs != [] {
      var t := evs[0];
      EmptyVerdictIsSound(Step(m, t.event), evs[1..], t.written, BegunAfter(m, t, begun),
                          if Conclusive(m, t.event) then begun else dated);
      assert evs[1..] != [] ==> evs[1..][|evs| - 2] == evs[|evs| - 1];
    }
  }

  /** What a page tells about the log: one with rows that something was written; an empty
      one that nothing was, if its request had no cursor, no time range and no search,
      and else nothing new. Nothing but a page answering an open load tells anything. */
  lemma PagesTellExactly(m: Model, ev: Event)
    ensures var n := Step(m, ev);
            if ev.Settle? && ev.answer.Page? && m.loading.Some? then
              var ask := m.loading.value;
              var blank := (name: string) => Trim(Get(ask.query.filters, name)) == "";
              if ev.answer.rows != [] then n.storeEmpty == Some(false)
              else if (ask.cursor == None || ask.cursor == Some("")) && blank("from") && blank("to") && blank("q")
              then n.storeEmpty == Some(true)
              else n.storeEmpty == m.storeEmpty
            else n.storeEmpty == m.storeEmpty
  {
    assert Trim("") == "";
  }

  /** What the table renders is what the open load's own answer brought; nothing but an
      answer to an open load changes it. */
  lemma RendersTheAnswer(m: Model, ev: Event)
    ensures var n := Step(m, ev);
            n.shown == if ev.Settle? && m.loading.Some? then Some(Shown(m.loading.value, ev.answer)) else m.shown
  {
  }
}
