/** The live text filters of the assets table: a debounced box in front of the
    state store and the load cycle, from typed text to rendered rows. */
module FilterBox {
  import opened Sequences
  import opened Text
  import opened PagerStore
  import opened Signature
  import AssetsTable

  datatype BoxEvent =
    | Input(text: string)
    | TimerFires
    | Flush               // Enter, or the native change event
    | Clear

  /** The box: its text, whether a debounce is waiting, and the value most
      recently handed to the table. */
  datatype Box = Box(text: string, waiting: bool, dispatched: string)

  function Seeded(initial: string): Box {
    Box(Stripped(initial), false, Trim(initial))
  }

  function Dispatch(b: Box): (Box, Option<string>) {
    (Box(b.text, false, Trim(b.text)), Some(Trim(b.text)))
  }

  /** The box after an event, and what it hands to the table, if anything. */
  function BoxStep(b: Box, ev: BoxEvent): (Box, Option<string>) {
    match ev
    case Input(text) =>
      if Trim(text) == "" then Dispatch(b.(text := text)) else (b.(text := text, waiting := true), None)
    case TimerFires => if b.waiting then Dispatch(b) else (b, None)
    case Flush => if Trim(b.text) == b.dispatched then (b.(waiting := false), None) else Dispatch(b)
    case Clear => Dispatch(b.(text := ""))
  }

  // ─── The box itself, over the page's timers ───

  class DebouncedBox {
    var text: string
    var timer: Option<nat>
    var dispatched: string
    var pending: set<nat>   // the page's armed timers
    var lastId: nat

    ghost function Observed(): Box
      reads this
    {
      Box(text, timer.Some?, dispatched)
    }

    /** At most one timer is ever armed, and it is the one the box knows. */
    ghost predicate Valid()
      reads this
    {
      && pending == (if timer.Some? then {timer.value} else {})
      && |pending| <= 1
      && forall t :: t in pending ==> t <= lastId
    }

    /** The element drops the line breaks of its seed; the seed itself, trimmed,
        counts as handed over. */
    constructor (initial: string)
      ensures Valid() && Observed() == Seeded(initial)
    {
      text, timer, dispatched := Stripped(initial), None, Trim(initial);
      pending, lastId := {}, 0;
    }

    method Cancel()
      requires |pending| <= 1 && (timer.None? ==> pending == {}) && (timer.Some? ==> pending <= {timer.value})
      modifies this`timer, this`pending
      ensures timer == None && pending == {}
    {
      if timer.Some? {
        pending := pending - {timer.value};
        timer := None;
      }
    }

    method SendNow() returns (sent: Option<string>)
      requires |pending| <= 1 && (timer.None? ==> pending == {}) && (timer.Some? ==> pending <= {timer.value})
      modifies this`timer, this`pending, this`dispatched
      ensures Valid()
      ensures (Observed(), sent) == Dispatch(old(Observed()))
    {
      Cancel();
      dispatched := Trim(text);
      return Some(dispatched);
    }

    method Handle(ev: BoxEvent) returns (sent: Option<string>)
      requires Valid()
      modifies this
      ensures Valid()
      ensures (Observed(), sent) == BoxStep(old(Observed()), ev)
    {
      sent := None;
      match ev {
        case Input(typed) =>
          text := typed;
          if Trim(text) == "" {
            sent := SendNow();
          } else {
            Cancel();
            lastId := lastId + 1;
            timer, pending := Some(lastId), pending + {lastId};
          }
        case TimerFires =>
          if timer.Some? && timer.value in pending {
            pending := pending - {timer.value};
            sent := SendNow();
          }
        case Flush =>
          if Trim(text) == dispatched {
            Cancel();
          } else {
            sent := SendNow();
          }
        case Clear =>
          text := "";
          sent := SendNow();
      }
    }
  }

  /** One box event, wired to the table: what the box hands over becomes the
      value of its filter. */
  method Wire(box: DebouncedBox, table: AssetsTable.Table, name: string, ev: BoxEvent)
    requires box.Valid() && table.Valid()
    modifies box, table, table.store
    ensures box.Valid() && table.Valid()
    ensures box.Observed() == BoxStep(old(box.Observed()), ev).0
    ensures table.Observed() == Deliver(old(table.Observed()), name, BoxStep(old(box.Observed()), ev).1)
  {
    var sent := box.Handle(ev);
    if sent.Some? {
      table.OperateControl(SetFilter(name, sent.value));
    }
  }

  function Deliver(t: AssetsTable.Model, name: string, sent: Option<string>): AssetsTable.Model {
    if sent.Some? then AssetsTable.Step(t, AssetsTable.Operate(SetFilter(name, sent.value))) else t
  }

  // ─── Several boxes in front of one table ───

  datatype Page = Page(boxes: map<string, Box>, table: AssetsTable.Model)

  datatype Event =
    | Typed(name: string, box: BoxEvent)
    | Other(event: AssetsTable.Event)

  function Step(p: Page, ev: Event): Page {
    match ev
    case Typed(name, e) =>
      if name !in p.boxes then p
      else
        var r := BoxStep(p.boxes[name], e);
        Page(p.boxes[name := r.0], Deliver(p.table, name, r.1))
    case Other(e) => p.(table := AssetsTable.Step(p.table, e))
  }

  function Run(p: Page, evs: seq<Event>): Page
    decreases |evs|
  {
    if evs == [] then p else Run(Step(p, evs[0]), evs[1..])
  }

  /** Nothing but a box writes the filter of that box. */
  predicate LeavesBoxesAlone(boxes: set<string>, ev: Event) {
    ev.Other? && ev.event.Operate? ==>
      && !ev.event.op.SetFilters?
      && (ev.event.op.SetFilter? ==> ev.event.op.name !in boxes)
  }

  /** The trimmed text a state filters by under `name`. */
  function FilterText(filters: map<string, string>, name: string): string {
    if name in filters then Trim(filters[name]) else ""
  }

  /** The box shows what it handed over, or a debounce is waiting. */
  predicate Agrees(b: Box) {
    !b.waiting ==> Trim(b.text) == b.dispatched
  }

  ghost predicate Coherent(p: Page) {
    && AssetsTable.Coherent(p.table) && p.table.store.mode == OffsetPaging
    && forall name :: name in p.boxes ==>
         FilterText(p.table.store.filters, name) == p.boxes[name].dispatched
  }

  /** Any use of a box makes it agree; the timer keeps it so. */
  lemma BoxStepFacts(b: Box, ev: BoxEvent)
    ensures var r := BoxStep(b, ev);
            && (!ev.TimerFires? || Agrees(b) ==> Agrees(r.0))
            && (ev.TimerFires? && !b.waiting ==> r.0 == b)
            && (r.1.Some? ==> r.1.value == r.0.dispatched && Trim(r.1.value) == r.1.value)
            && (r.1.None? ==> r.0.dispatched == b.dispatched)
  {
    TrimIdempotent(b.text);
    if ev.Input? {
      TrimIdempotent(ev.text);
    }
    TrimIdempotent("");
  }

  lemma OtherKeepsFilters(t: AssetsTable.Model, ev: AssetsTable.Event, name: string)
    requires AssetsTable.Coherent(t) && t.store.mode == OffsetPaging
    requires ev.Operate? ==> !ev.op.SetFilters? && (ev.op.SetFilter? ==> ev.op.name != name)
    ensures FilterText(AssetsTable.Step(t, ev).store.filters, name) == FilterText(t.store.filters, name)
  {
  }

  /** The operator types into, flushes or clears the box. */
  predicate Uses(ev: Event, name: string) {
    ev.Typed? && ev.name == name && !ev.box.TimerFires?
  }

  lemma StepKeepsCoherent(p: Page, ev: Event)
    requires Coherent(p) && LeavesBoxesAlone(p.boxes.Keys, ev)
    ensures Coherent(Step(p, ev)) && Step(p, ev).boxes.Keys == p.boxes.Keys
    ensures forall name :: name in p.boxes ==>
              && (Uses(ev, name) || Agrees(p.boxes[name]) ==> Agrees(Step(p, ev).boxes[name]))
              && (!Uses(ev, name) && !p.boxes[name].waiting ==> Step(p, ev).boxes[name] == p.boxes[name])
  {
    var n := Step(p, ev);
    match ev
    case Typed(name, e) =>
      if name in p.boxes {
        BoxStepFacts(p.boxes[name], e);
        var r := BoxStep(p.boxes[name], e);
        if r.1.Some? {
          var change := AssetsTable.Operate(SetFilter(name, r.1.value));
          AssetsTable.StepKeepsCoherent(p.table, change);
          forall other | other in p.boxes && other != name
            ensures FilterText(n.table.store.filters, other) == FilterText(p.table.store.filters, other)
          {
            OtherKeepsFilters(p.table, change, other);
          }
        }
      }
    case Other(e) =>
      AssetsTable.StepKeepsCoherent(p.table, e);
      forall name | name in p.boxes
        ensures FilterText(n.table.store.filters, name) == FilterText(p.table.store.filters, name)
      {
        OtherKeepsFilters(p.table, e, name);
      }
  }

  ghost predicate Undisturbed(boxes: set<string>, evs: seq<Event>) {
    forall ev :: ev in evs ==> LeavesBoxesAlone(boxes, ev)
  }

  ghost predicate Used(evs: seq<Event>, name: string) {
    exists ev :: ev in evs && Uses(ev, name)
  }

  /** Over every run each box's filter is what the box handed over; a box that ever
      agreed or was used agrees, and one that never was is as it was seeded. */
  lemma {:induction false} RunKeepsCoherent(p: Page, evs: seq<Event>, name: string)
    requires Coherent(p) && Undisturbed(p.boxes.Keys, evs) && name in p.boxes
    ensures var n := Run(p, evs);
            && Coherent(n) && n.boxes.Keys == p.boxes.Keys
            && (Used(evs, name) || Agrees(p.boxes[name]) ==> Agrees(n.boxes[name]))
            && (!Used(evs, name) && !p.boxes[name].waiting ==> n.boxes[name] == p.boxes[name])
    decreases |evs|
  {
    if evs != [] {
      assert evs[0] in evs && forall ev :: ev in evs <==> ev == evs[0] || ev in evs[1..];
      StepKeepsCoherent(p, evs[0]);
      RunKeepsCoherent(Step(p, evs[0]), evs[1..], name);
    }
  }

  /** The page when first mounted: each box is seeded with the text of its filter. */
  function Mounted(store: State, texts: map<string, string>): Page {
    Page(map name | name in texts :: Seeded(texts[name]), AssetsTable.Mounted(store))
  }

  /** From box to rows: whenever no debounce waits and no load is open, the table
      shows the outcome fetched for exactly the trimmed text in the box, if and only if
      its seed, trimmed, was on one line or the box has been used since. */
  lemma BoxesToRows(store: State, texts: map<string, string>, evs: seq<Event>, name: string)
    requires store.mode == OffsetPaging
    requires forall n :: n in texts ==> texts[n] == if n in store.filters then store.filters[n] else ""
    requires name in texts && Undisturbed(texts.Keys, evs)
    ensures var p := Run(Mounted(store, texts), evs);
            && p.boxes.Keys == texts.Keys
            && (p.table.loading.None? ==> p.table.shown.Some?)
            && (p.table.loading.None? && !p.boxes[name].waiting ==>
                  (FilterText(p.table.shown.value.view.filters, name) == Trim(p.boxes[name].text)
                   <==> OneLine(Trim(texts[name])) || Used(evs, name)))
  {
    TrimIdempotent("");
    assert Trim("") == "";
    assert Coherent(Mounted(store, texts));
    TrimStripped(texts[name]);
    RunKeepsCoherent(Mounted(store, texts), evs, name);
  }

  /** A link whose search text holds a line break: the first load asks for the text
      with the break, the box shows it without, and nothing is waiting. */
  lemma SeedWithABreak(store: State, texts: map<string, string>, name: string, answer: AssetsTable.Answer)
    requires store.mode == OffsetPaging
    requires forall n :: n in texts ==> texts[n] == if n in store.filters then store.filters[n] else ""
    requires name in texts && texts[name] == "a\nb"
    ensures var p := Run(Mounted(store, texts), [Other(AssetsTable.Settle(answer))]);
            && p.table.loading.None? && p.table.shown.Some? && name in p.boxes && !p.boxes[name].waiting
            && FilterText(p.table.shown.value.view.filters, name) != Trim(p.boxes[name].text)
  {
    hide Trim, Stripped, FilterText, Coherent, AssetsTable.Step, AssetsTable.Mounted;
    var evs := [Other(AssetsTable.Settle(answer))];
    var seed, p := Mounted(store, texts), Run(Mounted(store, texts), evs);
    assert evs[1..] == [];
    assert p == Run(Step(seed, evs[0]), evs[1..]) == Step(seed, evs[0]);
    TrimFixesTrimmed("a\nb");
    assert "a\nb"[1] == '\n';
    FirstAnswerSettles(store, answer);
    BoxesToRows(store, texts, evs, name);
  }

  lemma FirstAnswerSettles(store: State, answer: AssetsTable.Answer)
    ensures AssetsTable.Step(AssetsTable.Mounted(store), AssetsTable.Settle(answer)).loading.None?
  {
  }

  /** What leaving the filters to the boxes is worth: replacing all filters from
      outside, as the store allows, leaves rows and box in agreement exactly when the
      text given for the box's filter is the one the box shows. */
  lemma OutsideFilterAgreesExactly(p: Page, name: string, values: map<string, string>, answer: AssetsTable.Answer)
    requires Coherent(p) && name in p.boxes && !p.boxes[name].waiting && p.table.loading.None?
    ensures var q := Run(p, [Other(AssetsTable.Operate(SetFilters(values))), Other(AssetsTable.Settle(answer))]);
            && q.table.loading.None? && name in q.boxes && q.table.shown.Some?
            && (FilterText(q.table.shown.value.view.filters, name) == Trim(q.boxes[name].text)
                <==> FilterText(values, name) == Trim(p.boxes[name].text))
  {
    var first, second := Other(AssetsTable.Operate(SetFilters(values))), Other(AssetsTable.Settle(answer));
    assert [first, second][1..] == [second];
    assert Run(Step(p, first), [second]) == Step(Step(p, first), second);
    TrimIdempotent("");
    assert Trim("") == "";
  }

  // ─── The three rhythms ───

  /** The box's text after `evs`, as the operator left it. */
  function TextAfter(text: string, evs: seq<BoxEvent>): string {
    if evs == [] then text
    else
      var n := |evs| - 1;
      match evs[n]
      case Input(typed) => typed
      case Clear => ""
      case _ => TextAfter(text, evs[..n])
  }

  function BoxRun(b: Box, evs: seq<BoxEvent>): Box {
    if evs == [] then b else BoxStep(BoxRun(b, evs[..|evs| - 1]), evs[|evs| - 1]).0
  }

  /** Over any run the box holds what was typed last, and nothing once it is cleared. */
  lemma {:induction false} BoxHoldsTheText(b: Box, evs: seq<BoxEvent>)
    ensures BoxRun(b, evs).text == TextAfter(b.text, evs)
  {
    if evs != [] {
      BoxHoldsTheText(b, evs[..|evs| - 1]);
    }
  }

  /** When the table hears of the text: typing waits, unless it empties the box; the
      timer and clearing tell it at once, Enter and blur exactly when it was not told
      already; whatever it is told is the trimmed text, and then nothing is waiting. */
  lemma RhythmsExactly(b: Box, ev: BoxEvent)
    ensures var (n, sent) := BoxStep(b, ev);
            && (sent.Some? <==>
                  match ev
                  case Input(typed) => Trim(typed) == ""
                  case TimerFires => b.waiting
                  case Flush => Trim(b.text) != b.dispatched
                  case Clear => true)
            && (sent.Some? ==> sent.value == Trim(n.text) && !n.waiting)
            && (ev.Flush? || ev.Clear? ==> !n.waiting)
            && (ev.Clear? ==> sent == Some(""))
            && (ev.Input? && Trim(ev.text) != "" ==> n.waiting)
  {
    assert Trim("") == "";
  }
}
