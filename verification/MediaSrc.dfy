/** The shared-element ownership protocol of `applyPresignedMediaSrc`.

    Several invocations of the helper may be open on one media element at once.
    `Model` and `Step` say what an observer sees happen; `MediaElement` keeps the
    owner slot, the listener list and the closure variables the helper keeps, and
    every one of its methods is proved to take exactly the observed step. */
module MediaSrc {
  import opened Sequences

  // ─── Loadable addresses ───

  function LowerAscii(c: char): char {
    if 'A' <= c <= 'Z' then c - 'A' + 'a' else c
  }

  predicate StartsWithCI(s: string, prefix: string) {
    |prefix| <= |s| && forall i :: 0 <= i < |prefix| ==> LowerAscii(s[i]) == prefix[i]
  }

  /** What the page provides: `gated` is the URL parser's answer to "is this a
      bearer-gated stream path", and `isSource` says the element is a `<source>`
      inside a media parent. */
  datatype Env = Env(gated: string -> bool, isSource: bool)

  predicate IsLoadable(env: Env, url: string) {
    (StartsWithCI(url, "http://") || StartsWithCI(url, "https://")) && !env.gated(url)
  }

  function Lowered(s: string): string {
    Map(LowerAscii, s)
  }

  /** What can be loaded: an `http` or `https` address, in whatever case its scheme is
      written, that is no bearer-gated stream path. */
  lemma LoadableExactly(env: Env, url: string)
    ensures IsLoadable(env, url) <==> !env.gated(url) && ("http://" <= Lowered(url) || "https://" <= Lowered(url))
    ensures IsLoadable(env, url) ==> url != ""
  {
    LowerPrefix(url, "http://");
    LowerPrefix(url, "https://");
  }

  /** Only the Latin capitals change, each to its small letter. */
  lemma LowersExactly(c: char)
    ensures 'A' <= c <= 'Z' ==> LowerAscii(c) as int == c as int + 32
    ensures !('A' <= c <= 'Z') ==> LowerAscii(c) == c
  {
  }

  lemma LowerPrefix(url: string, prefix: string)
    ensures StartsWithCI(url, prefix) <==> prefix <= Lowered(url)
  {
    var low := Lowered(url);
    if |prefix| <= |url| {
      assert prefix == low[..|prefix|] <==> forall i :: 0 <= i < |prefix| ==> prefix[i] == low[i];
    }
  }

  // ─── What an observer sees ───

  datatype Options = Options(hasFetch: bool, placeholderClass: string, onSuccess: bool, onFailure: bool)

  /** One invocation: its options, whether its fetch is still unanswered, and the
      three closure variables of the helper. */
  datatype Call = Call(opts: Options, pending: bool, assignedUrl: string,
                       notifiedSuccess: bool, notifiedFailure: bool)

  /** An observable action, attributed to the invocation that took it. */
  datatype Effect =
    | Started(call: nat)
    | Assigned(call: nat, url: string)
    | Cleared(call: nat)
    | ParentLoad(call: nat)
    | ClassAdded(call: nat, name: string)
    | ClassRemoved(call: nat, name: string)
    | OnSuccess(call: nat)
    | OnFailure(call: nat)

  datatype Event =
    | Start(opts: Options)
    | Answered(call: nat, url: string)
    | Rejected(call: nat)
    | ErrorFired
    | OutsideWrite(written: string)

  datatype Model = Model(src: string, classes: set<string>, calls: seq<Call>, log: seq<Effect>)

  /** The latest invocation exists and has not failed. */
  predicate Live(m: Model) {
    m.calls != [] && !m.calls[|m.calls| - 1].notifiedFailure
  }

  function When(happens: bool, e: Effect): seq<Effect> {
    if happens then [e] else []
  }

  function Nudge(env: Env, c: nat): seq<Effect> {
    When(env.isSource, ParentLoad(c))
  }

  function FailEffects(env: Env, c: nat, opts: Options): seq<Effect> {
    [Cleared(c)] + Nudge(env, c)
    + When(opts.placeholderClass != "", ClassAdded(c, opts.placeholderClass))
    + When(opts.onFailure, OnFailure(c))
  }

  function ShowEffects(env: Env, c: nat, opts: Options, url: string): seq<Effect> {
    [Assigned(c, url)] + Nudge(env, c)
    + When(opts.placeholderClass != "", ClassRemoved(c, opts.placeholderClass))
    + When(opts.onSuccess, OnSuccess(c))
  }

  function FailLatest(env: Env, m: Model): Model
    requires Live(m)
  {
    var c := |m.calls| - 1;
    var call := m.calls[c];
    var name := call.opts.placeholderClass;
    Model("",
          if name != "" then m.classes + {name} else m.classes,
          m.calls[c := call.(notifiedFailure := true)],
          m.log + FailEffects(env, c, call.opts))
  }

  function ShowLatest(env: Env, m: Model, url: string): Model
    requires Live(m)
  {
    var c := |m.calls| - 1;
    var call := m.calls[c];
    var name := call.opts.placeholderClass;
    Model(url,
          if name != "" then m.classes - {name} else m.classes,
          m.calls[c := call.(assignedUrl := url, notifiedSuccess := true)],
          m.log + ShowEffects(env, c, call.opts, url))
  }

  function StartStep(env: Env, m: Model, opts: Options): Model {
    var begun := m.(calls := m.calls + [Call(opts, opts.hasFetch, "", false, false)],
                    log := m.log + [Started(|m.calls|)]);
    if opts.hasFetch then begun else FailLatest(env, begun)
  }

  /** The fetch of invocation `c` is answered (`url` is what the body held) or
      rejected (`None`). Only the latest, unfailed invocation reacts. */
  function SettleStep(env: Env, m: Model, c: nat, url: Option<string>): Model {
    if c >= |m.calls| || !m.calls[c].pending then m
    else
      var settled := m.(calls := m.calls[c := m.calls[c].(pending := false)]);
      if c != |m.calls| - 1 || !Live(m) then settled
      else if url.Some? && IsLoadable(env, url.value) then ShowLatest(env, settled, url.value)
      else FailLatest(env, settled)
  }

  /** The latest invocation owns the resource that failed, or has none yet. */
  predicate ErrorHits(m: Model) {
    Live(m) &&
    var call := m.calls[|m.calls| - 1];
    call.assignedUrl == "" || call.assignedUrl == m.src
  }

  function Step(env: Env, m: Model, ev: Event): Model {
    match ev
    case Start(opts) => StartStep(env, m, opts)
    case Answered(c, url) => SettleStep(env, m, c, Some(url))
    case Rejected(c) => SettleStep(env, m, c, None)
    case ErrorFired => if ErrorHits(m) then FailLatest(env, m) else m
    case OutsideWrite(url) => m.(src := url)
  }

  function Run(env: Env, m: Model, evs: seq<Event>): Model
    decreases |evs|
  {
    if evs == [] then m else Run(env, Step(env, m, evs[0]), evs[1..])
  }

  lemma FailRecord(env: Env, c: nat, opts: Options, log: seq<Effect>)
    ensures var name := opts.placeholderClass;
            var cleared := log + [Cleared(c)] + Nudge(env, c);
            var dressed := if name != "" then cleared + [ClassAdded(c, name)] else cleared;
            log + FailEffects(env, c, opts) == if opts.onFailure then dressed + [OnFailure(c)] else dressed
  {
  }

  // ─── The element, as the helper keeps it ───

  class MediaElement {
    const env: Env
    var src: string
    var classes: set<string>
    var owner: Option<nat>
    var listeners: seq<nat>
    var calls: seq<Call>
    ghost var log: seq<Effect>

    ghost function Observed(): Model
      reads this
    {
      Model(src, classes, calls, log)
    }

    /** One owner and one listener while the latest invocation has not failed,
        none of either otherwise; an unanswered fetch has assigned nothing. */
    ghost predicate Valid()
      reads this
    {
      && owner == (if Live(Observed()) then Some(|calls| - 1) else None)
      && listeners == (if Live(Observed()) then [|calls| - 1] else [])
      && forall c :: 0 <= c < |calls| && calls[c].pending ==>
                     calls[c].assignedUrl == "" && !calls[c].notifiedSuccess
    }

    constructor (env: Env, src: string, classes: set<string>)
      ensures Valid() && this.env == env
      ensures Observed() == Model(src, classes, [], [])
    {
      this.env := env;
      this.src, this.classes := src, classes;
      this.owner, this.listeners, this.calls := None, [], [];
      this.log := [];
    }

    predicate IsCurrent(token: nat)
      reads this
    {
      owner == Some(token)
    }

    method RemoveListener(token: nat)
      modifies this`listeners
      ensures listeners == Filter(t => t != token, old(listeners))
    {
      listeners := Filter(t => t != token, listeners);
    }

    method Release(token: nat)
      modifies this`listeners, this`owner
      ensures if old(owner) == Some(token)
              then listeners == Filter(t => t != token, old(listeners)) && owner == None
              else listeners == old(listeners) && owner == old(owner)
    {
      if !IsCurrent(token) { return; }
      RemoveListener(token);
      owner := None;
    }

    method ReselectParent(token: nat)
      modifies this`log
      ensures log == old(log) + Nudge(env, token)
    {
      if env.isSource {
        log := log + [ParentLoad(token)];
      }
    }

    method AssignMediaSrc(token: nat, url: string) returns (done: bool)
      modifies this`src, this`log
      ensures done == IsLoadable(env, url)
      ensures src == if done then url else old(src)
      ensures log == if done then old(log) + [Assigned(token, url)] + Nudge(env, token) else old(log)
    {
      if !IsLoadable(env, url) { return false; }
      src := url;
      log := log + [Assigned(token, url)];
      ReselectParent(token);
      return true;
    }

    method ClearMediaSrc(token: nat)
      modifies this`src, this`log
      ensures src == "" && log == old(log) + [Cleared(token)] + Nudge(env, token)
    {
      src := "";
      log := log + [Cleared(token)];
      ReselectParent(token);
    }

    /** Tear down, but only for the invocation that owns the element and only
        while the element still shows what that invocation put there. */
    method Fail(token: nat)
      requires Valid() && token < |calls|
      modifies this
      ensures Valid()
      ensures Observed() ==
              if old(Live(Observed())) && token == |old(calls)| - 1 && old(ErrorHits(Observed()))
              then FailLatest(env, old(Observed())) else old(Observed())
    {
      if calls[token].notifiedFailure { return; }
      if !IsCurrent(token) { return; }
      if calls[token].assignedUrl != "" && src != calls[token].assignedUrl { return; }
      calls := calls[token := calls[token].(notifiedFailure := true)];
      Release(token);
      ShowPlaceholder(token);
    }

    /** Empty the element, dress it as a placeholder and report the failure. */
    method ShowPlaceholder(token: nat)
      requires token < |calls|
      modifies this`src, this`classes, this`log
      ensures src == "" && log == old(log) + FailEffects(env, token, calls[token].opts)
      ensures var name := calls[token].opts.placeholderClass;
              classes == if name != "" then old(classes) + {name} else old(classes)
    {
      ClearMediaSrc(token);
      var name := calls[token].opts.placeholderClass;
      if name != "" {
        classes := classes + {name};
        log := log + [ClassAdded(token, name)];
      }
      if calls[token].opts.onFailure {
        log := log + [OnFailure(token)];
      }
      FailRecord(env, token, calls[token].opts, old(log));
    }

    /** The helper's body up to its `await`. */
    method Apply(opts: Options)
      requires Valid()
      modifies this
      ensures Valid()
      ensures Observed() == Step(env, old(Observed()), Start(opts))
    {
      var token := |calls|;
      calls := calls + [Call(opts, opts.hasFetch, "", false, false)];
      log := log + [Started(token)];
      var previousOwner := owner;
      if previousOwner.Some? {
        RemoveListener(previousOwner.value);
      }
      owner := Some(token);
      listeners := listeners + [token];
      if !opts.hasFetch {
        Fail(token);
      }
    }

    /** The rest of the helper's body once its fetch was rejected. */
    method FetchRejected(token: nat)
      requires Valid()
      modifies this
      ensures Valid()
      ensures Observed() == Step(env, old(Observed()), Rejected(token))
    {
      if token >= |calls| || !calls[token].pending { return; }
      calls := calls[token := calls[token].(pending := false)];
      Fail(token);
    }

    /** The rest of the helper's body once its fetch was answered. */
    method FetchAnswered(token: nat, url: string)
      requires Valid()
      modifies this
      ensures Valid()
      ensures Observed() == Step(env, old(Observed()), Answered(token, url))
    {
      if token >= |calls| || !calls[token].pending { return; }
      calls := calls[token := calls[token].(pending := false)];
      if !IsCurrent(token) { return; }
      if !IsLoadable(env, url) {
        Fail(token);
        return;
      }
      var done := AssignMediaSrc(token, url);
      if !done {
        assert false;
      }
      calls := calls[token := calls[token].(assignedUrl := url)];
      Succeed(token);
    }

    /** Take the placeholder off and report the success, once. */
    method Succeed(token: nat)
      requires token < |calls|
      modifies this`calls, this`classes, this`log
      ensures var call := old(calls)[token];
              var name := call.opts.placeholderClass;
              if call.notifiedSuccess
              then calls == old(calls) && classes == old(classes) && log == old(log)
              else && calls == old(calls)[token := call.(notifiedSuccess := true)]
                   && classes == (if name != "" then old(classes) - {name} else old(classes))
                   && log == old(log) + When(name != "", ClassRemoved(token, name))
                             + When(call.opts.onSuccess, OnSuccess(token))
    {
      if calls[token].notifiedSuccess { return; }
      calls := calls[token := calls[token].(notifiedSuccess := true)];
      var name := calls[token].opts.placeholderClass;
      if name != "" {
        classes := classes - {name};
        log := log + [ClassRemoved(token, name)];
      }
      if calls[token].opts.onSuccess {
        log := log + [OnSuccess(token)];
      }
    }

    /** The browser dispatches `error`: every listener registered when the
        dispatch begins is run unless it was removed meanwhile. */
    method FireError()
      requires Valid()
      modifies this
      ensures Valid()
      ensures Observed() == Step(env, old(Observed()), ErrorFired)
    {
      var dispatched := listeners;
      var i := 0;
      while i < |dispatched|
        invariant 0 <= i <= |dispatched|
        invariant Valid()
        invariant i == 0 ==> Observed() == old(Observed()) && listeners == dispatched
        invariant i == 1 ==> Observed() == Step(env, old(Observed()), ErrorFired)
        invariant |dispatched| <= 1
      {
        if dispatched[i] in listeners {
          Fail(dispatched[i]);
        }
        i := i + 1;
      }
    }

    method WriteOutside(url: string)
      requires Valid()
      modifies this
      ensures Valid()
      ensures Observed() == Step(env, old(Observed()), OutsideWrite(url))
    {
      src := url;
    }

    /** Any interleaving of calls, answers, rejections, errors and outside writes
        takes the observed steps, and leaves one owner and one listener exactly
        while the latest invocation has not failed. */
    method Replay(evs: seq<Event>)
      requires Valid()
      modifies this
      ensures Valid()
      ensures Observed() == Run(env, old(Observed()), evs)
      ensures |listeners| == (if Live(Observed()) then 1 else 0)
      ensures owner.Some? <==> Live(Observed())
      ensures owner.Some? ==> listeners == [owner.value] && owner.value == |calls| - 1
    {
      var i := 0;
      while i < |evs|
        invariant 0 <= i <= |evs|
        invariant Valid()
        invariant Run(env, Observed(), evs[i..]) == Run(env, old(Observed()), evs)
      {
        assert evs[i..][0] == evs[i] && evs[i..][1..] == evs[i + 1..];
        match evs[i] {
          case Start(opts) => Apply(opts);
          case Answered(c, url) => FetchAnswered(c, url);
          case Rejected(c) => FetchRejected(c);
          case ErrorFired => FireError();
          case OutsideWrite(url) => WriteOutside(url);
        }
        i := i + 1;
      }
    }
  }

  // ─── Only the latest invocation acts ───

  function LatestAfter(m: Model, ev: Event): int {
    |m.calls| - (if ev.Start? then 0 else 1)
  }

  /** What a step records. */
  function Added(env: Env, m: Model, ev: Event): seq<Effect> {
    match ev
    case Start(opts) =>
      [Started(|m.calls|)] + (if opts.hasFetch then [] else FailEffects(env, |m.calls|, opts))
    case Answered(c, url) => SettleEffects(env, m, c, Some(url))
    case Rejected(c) => SettleEffects(env, m, c, None)
    case ErrorFired =>
      if ErrorHits(m) then FailEffects(env, |m.calls| - 1, m.calls[|m.calls| - 1].opts) else []
    case OutsideWrite(_) => []
  }

  function SettleEffects(env: Env, m: Model, c: nat, url: Option<string>): seq<Effect> {
    if c + 1 != |m.calls| || !m.calls[c].pending || !Live(m) then []
    else if url.Some? && IsLoadable(env, url.value) then ShowEffects(env, c, m.calls[c].opts, url.value)
    else FailEffects(env, c, m.calls[c].opts)
  }

  lemma AppendFacts(s: seq<Effect>, c: nat, happens: bool, e: Effect, x: Effect)
    requires e.call == c && forall y :: y in s ==> y.call == c
    ensures forall y :: y in s + When(happens, e) ==> y.call == c
    ensures multiset(s + When(happens, e))[x] == multiset(s)[x] + Due(happens && e == x)
  {
    assert multiset(s + When(happens, e)) == multiset(s) + multiset(When(happens, e));
  }

  /** Four records in a row by `c`, the last three optional: how often `x` is among them. */
  lemma FourFacts(c: nat, e0: Effect, p1: bool, e1: Effect, p2: bool, e2: Effect, p3: bool, e3: Effect, x: Effect)
    requires e0.call == e1.call == e2.call == e3.call == c
    requires x != e0 && x != e1 && x != e2
    ensures var s := [e0] + When(p1, e1) + When(p2, e2) + When(p3, e3);
            && (forall e :: e in s ==> e.call == c)
            && multiset(s)[x] == Due(p3 && e3 == x)
  {
    hide When;
    AppendFacts([e0], c, p1, e1, x);
    AppendFacts([e0] + When(p1, e1), c, p2, e2, x);
    AppendFacts([e0] + When(p1, e1) + When(p2, e2), c, p3, e3, x);
  }

  lemma EffectFacts(env: Env, c: nat, opts: Options, url: string)
    ensures forall e :: e in FailEffects(env, c, opts) ==> e.call == c
    ensures forall e :: e in ShowEffects(env, c, opts, url) ==> e.call == c
    ensures multiset(FailEffects(env, c, opts))[OnFailure(c)] == Due(opts.onFailure)
    ensures multiset(FailEffects(env, c, opts))[OnSuccess(c)] == 0
    ensures multiset(ShowEffects(env, c, opts, url))[OnSuccess(c)] == Due(opts.onSuccess)
    ensures multiset(ShowEffects(env, c, opts, url))[OnFailure(c)] == 0
  {
    hide FailEffects, ShowEffects;
    FailFacts(env, c, opts, OnFailure(c));
    FailFacts(env, c, opts, OnSuccess(c));
    ShowFacts(env, c, opts, url, OnFailure(c));
    ShowFacts(env, c, opts, url, OnSuccess(c));
  }

  lemma FailFacts(env: Env, c: nat, opts: Options, x: Effect)
    requires x == OnFailure(c) || x == OnSuccess(c)
    ensures forall e :: e in FailEffects(env, c, opts) ==> e.call == c
    ensures multiset(FailEffects(env, c, opts))[x] == Due(opts.onFailure && x.OnFailure?)
  {
    hide When;
    var name := opts.placeholderClass;
    FourFacts(c, Cleared(c), env.isSource, ParentLoad(c), name != "", ClassAdded(c, name),
              opts.onFailure, OnFailure(c), x);
  }

  lemma ShowFacts(env: Env, c: nat, opts: Options, url: string, x: Effect)
    requires x == OnFailure(c) || x == OnSuccess(c)
    ensures forall e :: e in ShowEffects(env, c, opts, url) ==> e.call == c
    ensures multiset(ShowEffects(env, c, opts, url))[x] == Due(opts.onSuccess && x.OnSuccess?)
  {
    hide When;
    var name := opts.placeholderClass;
    FourFacts(c, Assigned(c, url), env.isSource, ParentLoad(c), name != "", ClassRemoved(c, name),
              opts.onSuccess, OnSuccess(c), x);
  }

  lemma EffectsNonEmpty(env: Env)
    ensures forall c, opts :: FailEffects(env, c, opts) != []
    ensures forall c, opts, url :: ShowEffects(env, c, opts, url) != []
  {
  }

  lemma AddedFacts(env: Env, m: Model, ev: Event, c: nat)
    requires c < |m.calls|
    ensures forall e :: e in Added(env, m, ev) ==> e.call == LatestAfter(m, ev)
    ensures c != LatestAfter(m, ev) ==>
              multiset(Added(env, m, ev))[OnSuccess(c)] == 0 && multiset(Added(env, m, ev))[OnFailure(c)] == 0
  {
    hide FailEffects, ShowEffects;
    if ev.Start? {
      EffectFacts(env, |m.calls|, ev.opts, "");
    } else {
      var k := |m.calls| - 1;
      EffectFacts(env, k, m.calls[k].opts, if ev.Answered? then ev.url else "");
    }
    assert OnSuccess(c) in multiset(Added(env, m, ev)) <==> OnSuccess(c) in Added(env, m, ev);
  }

  lemma StepLog(env: Env, m: Model, ev: Event)
    ensures Step(env, m, ev).log == m.log + Added(env, m, ev)
    ensures |Step(env, m, ev).calls| == LatestAfter(m, ev) + 1
  {
    hide FailEffects, ShowEffects;
    match ev
    case Start(opts) =>
    case Answered(c, url) => SettleLog(env, m, c, Some(url));
    case Rejected(c) => SettleLog(env, m, c, None);
    case ErrorFired =>
    case OutsideWrite(_) =>
  }

  lemma SettleLog(env: Env, m: Model, c: nat, url: Option<string>)
    ensures SettleStep(env, m, c, url).log == m.log + SettleEffects(env, m, c, url)
    ensures |SettleStep(env, m, c, url).calls| == |m.calls|
  {
  }

  /** Whatever a step records was done by the invocation that is the latest one
      after the step; the element's address and classes change only by such a
      recorded action or by an outside write. */
  lemma OnlyTheLatestActs(env: Env, m: Model, ev: Event)
    ensures var n := Step(env, m, ev);
            && n.log == m.log + Added(env, m, ev)
            && (forall e :: e in Added(env, m, ev) ==> e.call == |n.calls| - 1)
            && ((n.src != m.src && !ev.OutsideWrite?) || n.classes != m.classes ==> Added(env, m, ev) != [])
  {
    hide FailEffects, ShowEffects;
    StepLog(env, m, ev);
    EffectsNonEmpty(env);
    if m.calls != [] {
      AddedFacts(env, m, ev, 0);
    } else if ev.Start? {
      EffectFacts(env, 0, ev.opts, "");
    }
  }

  /** The record of a well-formed run: entries never go back to an older
      invocation, callbacks are recorded as the latches say and at most once,
      and no success follows a failure. */
  ghost predicate LogOk(m: Model) {
    && (forall i, j :: 0 <= i < j < |m.log| ==> m.log[i].call <= m.log[j].call)
    && (forall e :: e in m.log ==> e.call < |m.calls|)
    && (forall c :: 0 <= c < |m.calls| ==> CallOk(m, c))
  }

  ghost predicate CallOk(m: Model, c: nat)
    requires c < |m.calls|
  {
    var call := m.calls[c];
    && (call.pending ==> call.assignedUrl == "" && !call.notifiedSuccess)
    && multiset(m.log)[OnSuccess(c)] == Due(call.notifiedSuccess && call.opts.onSuccess)
    && multiset(m.log)[OnFailure(c)] == Due(call.notifiedFailure && call.opts.onFailure)
    && NoSuccessAfterFailure(m.log, c)
  }

  function Due(fired: bool): nat {
    if fired then 1 else 0
  }

  ghost predicate NoSuccessAfterFailure(log: seq<Effect>, c: nat) {
    forall i, j :: 0 <= i < j < |log| && log[i] == OnFailure(c) ==> log[j] != OnSuccess(c)
  }

  lemma NoSuccessAfterFailureConcat(a: seq<Effect>, b: seq<Effect>, c: nat)
    requires NoSuccessAfterFailure(a, c)
    requires OnSuccess(c) in b ==> OnFailure(c) !in a && OnFailure(c) !in b
    ensures NoSuccessAfterFailure(a + b, c)
  {
    assert forall k :: 0 <= k < |a + b| ==> if k < |a| then (a + b)[k] == a[k] else (a + b)[k] == b[k - |a|];
  }

  /** How one step may touch the record of invocation `c`. */
  lemma CallKept(m: Model, n: Model, added: seq<Effect>, c: nat)
    requires c < |m.calls| <= |n.calls| && CallOk(m, c)
    requires n.log == m.log + added
    requires n.calls[c].opts == m.calls[c].opts
    requires n.calls[c].pending ==> n.calls[c].assignedUrl == "" && !n.calls[c].notifiedSuccess
    requires var on := m.calls[c].opts.onSuccess;
             Due(n.calls[c].notifiedSuccess && on)
             == Due(m.calls[c].notifiedSuccess && on) + multiset(added)[OnSuccess(c)]
    requires var on := m.calls[c].opts.onFailure;
             Due(n.calls[c].notifiedFailure && on)
             == Due(m.calls[c].notifiedFailure && on) + multiset(added)[OnFailure(c)]
    requires OnSuccess(c) in added ==> OnFailure(c) !in added && !m.calls[c].notifiedFailure
    ensures CallOk(n, c)
  {
    assert OnFailure(c) in m.log <==> OnFailure(c) in multiset(m.log);
    NoSuccessAfterFailureConcat(m.log, added, c);
  }

  lemma StepKeepsCallOk(env: Env, m: Model, ev: Event, c: nat)
    requires c < |m.calls| && CallOk(m, c)
    ensures c < |Step(env, m, ev).calls| && CallOk(Step(env, m, ev), c)
  {
    hide FailEffects, ShowEffects;
    var n, added := Step(env, m, ev), Added(env, m, ev);
    StepLog(env, m, ev);
    assert OnSuccess(c) in multiset(added) <==> OnSuccess(c) in added;
    assert OnFailure(c) in multiset(added) <==> OnFailure(c) in added;
    if ev.Start? || c < |m.calls| - 1 {
      AddedFacts(env, m, ev, c);
      OlderCallKept(env, m, ev, c);
    } else {
      EffectFacts(env, c, m.calls[c].opts, if ev.Answered? then ev.url else "");
      LatestLatches(env, m, ev);
    }
    CallKept(m, n, added, c);
  }

  /** The latches of the latest call move exactly as the step's record says. */
  lemma LatestLatches(env: Env, m: Model, ev: Event)
    requires m.calls != [] && !ev.Start? && CallOk(m, |m.calls| - 1)
    ensures var c := |m.calls| - 1;
            var n, added := Step(env, m, ev), Added(env, m, ev);
            var old', new' := m.calls[c], n.calls[c];
            && |n.calls| == |m.calls| && new'.opts == old'.opts
            && (new'.pending ==> old'.pending && added in {[], FailEffects(env, c, old'.opts)})
            && (added == [] ==> new'.(pending := true) == old'.(pending := true))
            && (added != [] ==> !old'.notifiedFailure)
            && (added != [] ==>
                  || (added == FailEffects(env, c, old'.opts)
                      && new'.(pending := true) == old'.(pending := true, notifiedFailure := true))
                  || (ev.Answered? && added == ShowEffects(env, c, old'.opts, ev.url)
                      && new' == old'.(pending := false, assignedUrl := ev.url, notifiedSuccess := true)
                      && !old'.notifiedSuccess))
  {
    hide FailEffects, ShowEffects;
    EffectsNonEmpty(env);
  }

  /** A step leaves the latches of every call but the latest alone. */
  lemma OlderCallKept(env: Env, m: Model, ev: Event, c: nat)
    requires c < |m.calls| && c != LatestAfter(m, ev)
    ensures |m.calls| <= |Step(env, m, ev).calls|
    ensures Step(env, m, ev).calls[c].(pending := true) == m.calls[c].(pending := true)
    ensures Step(env, m, ev).calls[c].pending ==> m.calls[c].pending
  {
  }

  lemma LogOrderKept(a: seq<Effect>, b: seq<Effect>, k: nat)
    requires forall i, j :: 0 <= i < j < |a| ==> a[i].call <= a[j].call
    requires forall e :: e in a ==> e.call <= k
    requires forall e :: e in b ==> e.call == k
    ensures forall i, j :: 0 <= i < j < |a + b| ==> (a + b)[i].call <= (a + b)[j].call
    ensures forall e :: e in a + b ==> e.call <= k
  {
  }

  lemma StepKeepsLogOk(env: Env, m: Model, ev: Event)
    requires LogOk(m)
    ensures LogOk(Step(env, m, ev))
  {
    hide Added, CallOk, SettleStep, StartStep, ErrorHits, FailLatest;
    var n := Step(env, m, ev);
    OnlyTheLatestActs(env, m, ev);
    StepLog(env, m, ev);
    forall c | 0 <= c < |m.calls| ensures CallOk(n, c) {
      assert CallOk(m, c);
      StepKeepsCallOk(env, m, ev, c);
    }
    if ev.Start? {
      FirstEntries(env, m, ev.opts);
    }
    if n.calls != [] {
      LogOrderKept(m.log, Added(env, m, ev), |n.calls| - 1);
    }
  }

  lemma FirstEntries(env: Env, m: Model, opts: Options)
    requires forall e :: e in m.log ==> e.call < |m.calls|
    ensures CallOk(StartStep(env, m, opts), |m.calls|)
  {
    hide FailEffects, ShowEffects;
    var c := |m.calls|;
    var tail := if opts.hasFetch then [] else FailEffects(env, c, opts);
    EffectFacts(env, c, opts, "");
    assert OnSuccess(c) !in m.log && OnFailure(c) !in m.log;
    assert OnSuccess(c) !in multiset(tail);
    NoSuccessAfterFailureConcat(m.log, [Started(c)], c);
    NoSuccessAfterFailureConcat(m.log + [Started(c)], tail, c);
    assert StartStep(env, m, opts).log == m.log + [Started(c)] + tail;
  }

  function NewElement(src: string, classes: set<string>): Model {
    Model(src, classes, [], [])
  }

  /** The record stays well formed over every run. */
  lemma {:induction false} EveryRunIsOrdered(env: Env, m: Model, evs: seq<Event>)
    requires LogOk(m)
    ensures LogOk(Run(env, m, evs))
    decreases |evs|
  {
    if evs != [] {
      StepKeepsLogOk(env, m, evs[0]);
      EveryRunIsOrdered(env, Step(env, m, evs[0]), evs[1..]);
    }
  }

  /** In every run on a fresh element: once an invocation has started nothing an
      older one does is ever seen again, each callback of each invocation fires
      at most once, and its success never follows its failure. */
  lemma CallbacksAndOrder(env: Env, src: string, classes: set<string>, evs: seq<Event>, i: nat, j: nat)
    requires i < j < |Run(env, NewElement(src, classes), evs).log|
    ensures var log := Run(env, NewElement(src, classes), evs).log;
            && (log[i].Started? ==> log[j].call >= log[i].call)
            && (log[i] == log[j] ==> !log[i].OnSuccess? && !log[i].OnFailure?)
            && (log[i].OnFailure? ==> log[j] != OnSuccess(log[i].call))
  {
    EveryRunIsOrdered(env, NewElement(src, classes), evs);
    var m := Run(env, NewElement(src, classes), evs);
    var c := m.log[i].call;
    assert m.log[i] in m.log && CallOk(m, c);
    if m.log[i] == m.log[j] {
      TwiceCounts(m.log, i, j);
    }
  }

  lemma TwiceCounts<T>(s: seq<T>, i: nat, j: nat)
    requires i < j < |s| && s[i] == s[j]
    ensures multiset(s)[s[i]] >= 2
  {
    assert s == s[..j] + s[j..];
    assert s[i] in s[..j] && s[j] in s[j..];
  }

  // ─── Superseded invocations leave no trace ───

  /** The event settles the fetch of an invocation that is not the latest of `n`. */
  predicate Stale(ev: Event, n: nat) {
    (ev.Answered? || ev.Rejected?) && ev.call + 1 != n
  }

  /** The run with every settlement of a superseded invocation left out. */
  function Pruned(evs: seq<Event>, n: nat): seq<Event> {
    if evs == [] then []
    else if Stale(evs[0], n) then Pruned(evs[1..], n)
    else [evs[0]] + Pruned(evs[1..], if evs[0].Start? then n + 1 else n)
  }

  /** Equal in everything but what superseded invocations still wait for. */
  predicate SameElement(a: Model, b: Model) {
    && a.src == b.src && a.classes == b.classes && a.log == b.log
    && |a.calls| == |b.calls|
    && (a.calls != [] ==> a.calls[|a.calls| - 1] == b.calls[|b.calls| - 1])
  }

  lemma SameElementStep(env: Env, a: Model, b: Model, ev: Event)
    requires SameElement(a, b)
    requires !Stale(ev, |a.calls|)
    ensures SameElement(Step(env, a, ev), Step(env, b, ev))
  {
    hide FailEffects, ShowEffects;
  }

  lemma StaleChangesNothing(env: Env, m: Model, ev: Event)
    requires Stale(ev, |m.calls|)
    ensures SameElement(Step(env, m, ev), m)
  {
    hide FailEffects, ShowEffects;
  }

  /** However late and in whatever order superseded fetches settle, the element
      and everything recorded about it are as if they never had. */
  lemma {:induction false} SupersededLeaveNoTrace(env: Env, a: Model, b: Model, evs: seq<Event>)
    requires SameElement(a, b)
    ensures SameElement(Run(env, a, evs), Run(env, b, Pruned(evs, |a.calls|)))
    decreases |evs|
  {
    if evs != [] {
      var ev := evs[0];
      if Stale(ev, |a.calls|) {
        StaleChangesNothing(env, a, ev);
        SupersededLeaveNoTrace(env, Step(env, a, ev), b, evs[1..]);
      } else {
        SameElementStep(env, a, b, ev);
        StepLog(env, a, ev);
        var kept := Pruned(evs, |a.calls|);
        assert kept[1..] == Pruned(evs[1..], |Step(env, a, ev).calls|);
        SupersededLeaveNoTrace(env, Step(env, a, ev), Step(env, b, ev), evs[1..]);
      }
    }
  }

  // ─── When a loadable answer is shown ───

  /** Invocation `c` waits for its fetch and nothing has stopped it. */
  predicate Waiting(m: Model, c: nat) {
    && c + 1 == |m.calls| && m.calls[c].pending && !m.calls[c].notifiedFailure
    && m.calls[c].assignedUrl == "" && !m.calls[c].notifiedSuccess
  }

  /** Invocation `c` was superseded or has failed. */
  predicate Lost(m: Model, c: nat) {
    c < |m.calls| && (c + 1 != |m.calls| || m.calls[c].notifiedFailure)
  }

  predicate Settles(ev: Event, c: nat) {
    (ev.Answered? || ev.Rejected?) && ev.call == c
  }

  /** What does not end the wait: settlements of other calls and outside writes. */
  predicate LetsWait(ev: Event, c: nat) {
    !ev.Start? && !ev.ErrorFired? && !Settles(ev, c)
  }

  lemma WaitingStep(env: Env, m: Model, ev: Event, c: nat)
    requires Waiting(m, c) && !Settles(ev, c)
    ensures if LetsWait(ev, c) then Waiting(Step(env, m, ev), c) && Step(env, m, ev).calls[c] == m.calls[c]
            else Lost(Step(env, m, ev), c)
  {
    hide FailEffects, ShowEffects, IsLoadable;
  }

  lemma LostStep(env: Env, m: Model, ev: Event, c: nat)
    requires Lost(m, c)
    ensures Lost(Step(env, m, ev), c)
  {
    hide FailEffects, ShowEffects, IsLoadable;
  }

  /** Until `c` is settled it goes on waiting exactly while no newer call starts and
      no error fires. */
  lemma {:induction false} WaitDecides(env: Env, m: Model, c: nat, mid: seq<Event>)
    requires Waiting(m, c) || Lost(m, c)
    requires forall ev :: ev in mid ==> !Settles(ev, c)
    ensures var n := Run(env, m, mid);
            if Waiting(m, c) && forall ev :: ev in mid ==> LetsWait(ev, c)
            then Waiting(n, c) && n.calls[c] == m.calls[c] else Lost(n, c)
    decreases |mid|
  {
    if mid != [] {
      if Waiting(m, c) {
        WaitingStep(env, m, mid[0], c);
      } else {
        LostStep(env, m, mid[0], c);
      }
      WaitDecides(env, Step(env, m, mid[0]), c, mid[1..]);
      assert forall ev :: ev in mid <==> ev == mid[0] || ev in mid[1..];
    }
  }

  /** Only the answer of a waiting call assigns on its behalf. */
  lemma AssignsOnlyWhenAnswered(env: Env, m: Model, ev: Event, c: nat, url: string)
    ensures Assigned(c, url) in Step(env, m, ev).log <==>
            || Assigned(c, url) in m.log
            || (ev == Answered(c, url) && IsLoadable(env, url)
                && c + 1 == |m.calls| && m.calls[c].pending && !m.calls[c].notifiedFailure)
  {
    hide IsLoadable, Step, FailEffects, ShowEffects;
    StepLog(env, m, ev);
    var added := Added(env, m, ev);
    if ev.Start? {
      NoAssignment(env, |m.calls|, ev.opts, url);
      assert Assigned(c, url) !in added;
    } else if m.calls != [] {
      var k := |m.calls| - 1;
      NoAssignment(env, k, m.calls[k].opts, if ev.Answered? then ev.url else url);
      EffectsNonEmpty(env);
      if ev.Answered? && added == ShowEffects(env, k, m.calls[k].opts, ev.url) {
        assert Assigned(c, url) in added <==> c == k && url == ev.url;
      } else {
        assert Assigned(c, url) !in added;
      }
    }
  }

  lemma NoAssignment(env: Env, c: nat, opts: Options, url: string)
    ensures forall e :: e in FailEffects(env, c, opts) ==> !e.Assigned?
    ensures forall e :: e in ShowEffects(env, c, opts, url) && e.Assigned? ==> e == Assigned(c, url)
    ensures Assigned(c, url) in ShowEffects(env, c, opts, url)
  {
    assert ShowEffects(env, c, opts, url)[0] == Assigned(c, url);
  }

  lemma {:induction false} SettledAssignsNothing(env: Env, m: Model, c: nat, url: string, evs: seq<Event>)
    requires c < |m.calls|
    requires !m.calls[c].pending || forall ev :: ev in evs ==> !Settles(ev, c)
    ensures Assigned(c, url) in Run(env, m, evs).log <==> Assigned(c, url) in m.log
    decreases |evs|
  {
    if evs != [] {
      hide FailEffects, ShowEffects, IsLoadable;
      var n := Step(env, m, evs[0]);
      assert evs[0] in evs;
      AssignsOnlyWhenAnswered(env, m, evs[0], c, url);
      assert c < |n.calls| && (!m.calls[c].pending ==> !n.calls[c].pending);
      SettledAssignsNothing(env, n, c, url, evs[1..]);
    }
  }

  lemma {:induction false} RunConcat(env: Env, m: Model, a: seq<Event>, b: seq<Event>)
    ensures Run(env, m, a + b) == Run(env, Run(env, m, a), b)
    decreases |a|
  {
    if a == [] {
      assert a + b == b;
    } else {
      assert (a + b)[0] == a[0] && (a + b)[1..] == a[1..] + b;
      RunConcat(env, Step(env, m, a[0]), a[1..], b);
    }
  }

  lemma RunOne(env: Env, m: Model, ev: Event)
    ensures Run(env, m, [ev]) == Step(env, m, ev)
  {
    assert [ev][1..] == [];
  }

  /** A run in four parts: the start of a call, what comes before `ev`, `ev`, and the rest. */
  lemma RunParts(env: Env, m: Model, opts: Options, mid: seq<Event>, ev: Event, after: seq<Event>)
    ensures Run(env, m, [Start(opts)] + mid + [ev] + after)
         == Run(env, Step(env, Run(env, Step(env, m, Start(opts)), mid), ev), after)
  {
    hide Run, Step;
    RunConcat(env, m, [Start(opts)] + mid + [ev], after);
    RunConcat(env, m, [Start(opts)] + mid, [ev]);
    RunConcat(env, m, [Start(opts)], mid);
    RunOne(env, m, Start(opts));
    RunOne(env, Run(env, Step(env, m, Start(opts)), mid), ev);
  }

  lemma StartWaits(env: Env, m: Model, opts: Options)
    requires opts.hasFetch
    ensures var begun := Step(env, m, Start(opts));
            && Waiting(begun, |m.calls|) && begun.calls[|m.calls|].opts == opts
            && begun.log == m.log + [Started(|m.calls|)]
  {
  }

  /** A loadable answer is shown if and only if between the start of its call and
      the answer no newer call started and no error fired: whatever older or newer
      calls settle, whoever writes the address, and whatever happens afterwards. */
  lemma ShownExactly(env: Env, m: Model, opts: Options, mid: seq<Event>, url: string, after: seq<Event>)
    requires opts.hasFetch && IsLoadable(env, url)
    requires forall e :: e in m.log ==> e.call < |m.calls|
    requires forall ev :: ev in mid ==> !Settles(ev, |m.calls|)
    ensures Assigned(|m.calls|, url) in Run(env, m, [Start(opts)] + mid + [Answered(|m.calls|, url)] + after).log
       <==> forall ev :: ev in mid ==> !ev.Start? && !ev.ErrorFired?
  {
    hide IsLoadable, Step, Run;
    var c := |m.calls|;
    var begun := Step(env, m, Start(opts));
    var before := Run(env, begun, mid);
    var answered := Step(env, before, Answered(c, url));
    RunParts(env, m, opts, mid, Answered(c, url), after);
    StartWaits(env, m, opts);
    WaitDecides(env, begun, c, mid);
    SettledAssignsNothing(env, begun, c, url, mid);
    AssignsOnlyWhenAnswered(env, before, Answered(c, url), c, url);
    AnswerSettles(env, before, c, url);
    SettledAssignsNothing(env, answered, c, url, after);
  }

  lemma AnswerSettles(env: Env, m: Model, c: nat, url: string)
    requires c < |m.calls|
    ensures |Step(env, m, Answered(c, url)).calls| == |m.calls| && !Step(env, m, Answered(c, url)).calls[c].pending
  {
  }

  /** What the winner leaves behind: its address on the element, the placeholder off
      and its success recorded. */
  lemma WinnerShows(env: Env, m: Model, c: nat, url: string)
    requires Waiting(m, c) && IsLoadable(env, url)
    ensures var n := Step(env, m, Answered(c, url));
            var opts := m.calls[c].opts;
            && Live(n) && c + 1 == |n.calls| && !n.calls[c].pending && n.src == url
            && (opts.placeholderClass != "" ==> opts.placeholderClass !in n.classes)
            && (opts.onSuccess ==> OnSuccess(c) in n.log)
  {
    hide IsLoadable, FailEffects, ShowEffects;
    var opts := m.calls[c].opts;
    EffectFacts(env, c, opts, url);
    assert opts.onSuccess ==> OnSuccess(c) in multiset(ShowEffects(env, c, opts, url));
  }

  /** The last call wins: if nothing newer starts and no error fires before its
      loadable answer, that is what the element shows, and settlements of any call
      arriving afterwards take nothing of it away. */
  lemma LastCallWins(env: Env, m: Model, opts: Options, mid: seq<Event>, url: string, late: seq<Event>)
    requires opts.hasFetch && IsLoadable(env, url)
    requires forall ev :: ev in mid ==> LetsWait(ev, |m.calls|)
    requires forall ev :: ev in late ==> ev.Answered? || ev.Rejected?
    ensures var n := Run(env, m, [Start(opts)] + mid + [Answered(|m.calls|, url)] + late);
            && n.src == url && Live(n)
            && (opts.placeholderClass != "" ==> opts.placeholderClass !in n.classes)
            && (opts.onSuccess ==> OnSuccess(|m.calls|) in n.log)
  {
    hide IsLoadable, Step, Run;
    var c := |m.calls|;
    var begun := Step(env, m, Start(opts));
    RunParts(env, m, opts, mid, Answered(c, url), late);
    StartWaits(env, m, opts);
    WaitDecides(env, begun, c, mid);
    WinnerShows(env, Run(env, begun, mid), c, url);
    LateSettlements(env, Step(env, Run(env, begun, mid), Answered(c, url)), late);
  }

  /** Once the latest call is answered, settlements change nothing that is seen. */
  lemma {:induction false} LateSettlements(env: Env, m: Model, late: seq<Event>)
    requires m.calls != [] && !m.calls[|m.calls| - 1].pending
    requires forall ev :: ev in late ==> ev.Answered? || ev.Rejected?
    ensures SameElement(Run(env, m, late), m)
    decreases |late|
  {
    if late != [] {
      var n := Step(env, m, late[0]);
      assert late[0] in late && SameElement(n, m);
      LateSettlements(env, n, late[1..]);
    }
  }

  /** The one known edge, which is the only way an unsuperseded call loses: an
      `error`, be it of the predecessor's resource, that arrives while the fetch is
      open aborts the call, and its own good answer then shows nothing. */
  lemma PredecessorErrorAbortsSuccessor(env: Env, m: Model, opts: Options, mid: seq<Event>, url: string,
                                        late: seq<Event>)
    requires opts.hasFetch && IsLoadable(env, url)
    requires forall e :: e in m.log ==> e.call < |m.calls|
    requires forall ev :: ev in mid ==> LetsWait(ev, |m.calls|)
    requires forall ev :: ev in late ==> LetsWait(ev, |m.calls|) && !ev.OutsideWrite?
    ensures var n := Run(env, m, [Start(opts)] + (mid + [ErrorFired] + late) + [Answered(|m.calls|, url)] + []);
            && n.src == "" && !Live(n) && Assigned(|m.calls|, url) !in n.log
            && (opts.onFailure ==> OnFailure(|m.calls|) in n.log)
  {
    hide IsLoadable, Step, Run;
    var c := |m.calls|;
    var begun := Step(env, m, Start(opts));
    var waited := Run(env, begun, mid);
    var failed := Step(env, waited, ErrorFired);
    var events := mid + [ErrorFired] + late;
    assert ErrorFired in events && forall ev :: ev in events ==> ev in mid || ev == ErrorFired || ev in late;
    ShownExactly(env, m, opts, events, url, []);
    StartWaits(env, m, opts);
    WaitDecides(env, begun, c, mid);
    ErrorAborts(env, waited, c);
    RunParts(env, m, opts, events, Answered(c, url), []);
    RunConcat(env, begun, mid + [ErrorFired], late);
    RunConcat(env, begun, mid, [ErrorFired]);
    RunOne(env, waited, ErrorFired);
    RunConcat(env, failed, late, [Answered(c, url)]);
    RunOne(env, Run(env, failed, late), Answered(c, url));
    DownStaysDown(env, failed, late + [Answered(c, url)]);
    RunNone(env, Step(env, Run(env, failed, late), Answered(c, url)));
  }

  lemma RunNone(env: Env, m: Model)
    ensures Run(env, m, []) == m
  {
  }

  lemma ErrorAborts(env: Env, m: Model, c: nat)
    requires Waiting(m, c)
    ensures var n := Step(env, m, ErrorFired);
            && n.src == "" && !Live(n) && (m.calls[c].opts.onFailure ==> OnFailure(c) in n.log)
  {
    hide FailEffects;
    EffectFacts(env, c, m.calls[c].opts, "");
    assert m.calls[c].opts.onFailure ==> OnFailure(c) in multiset(FailEffects(env, c, m.calls[c].opts));
  }

  /** With the latest call failed, only a new call or an outside write is seen. */
  lemma {:induction false} DownStaysDown(env: Env, m: Model, evs: seq<Event>)
    requires !Live(m) && forall ev :: ev in evs ==> !ev.Start? && !ev.OutsideWrite?
    ensures var n := Run(env, m, evs);
            !Live(n) && n.src == m.src && n.classes == m.classes && n.log == m.log
    decreases |evs|
  {
    if evs != [] {
      assert evs[0] in evs;
      DownStaysDown(env, Step(env, m, evs[0]), evs[1..]);
    }
  }

  // ─── What a failure takes away, and when ───

  /** What a failed call leaves, as the page sees it: no address, the placeholder on,
      the failure reported to a caller who asked, and nobody left to act. */
  predicate TornDown(m: Model, c: nat, opts: Options) {
    && m.src == "" && !Live(m)
    && (opts.placeholderClass != "" ==> opts.placeholderClass in m.classes)
    && (opts.onFailure <==> OnFailure(c) in m.log)
  }

  lemma FailLatestTearsDown(env: Env, m: Model)
    requires Live(m) && OnFailure(|m.calls| - 1) !in m.log
    ensures TornDown(FailLatest(env, m), |m.calls| - 1, m.calls[|m.calls| - 1].opts)
  {
    hide FailEffects;
    FailureRecorded(env, |m.calls| - 1, m.calls[|m.calls| - 1].opts);
  }

  lemma FailureRecorded(env: Env, c: nat, opts: Options)
    ensures OnFailure(c) in FailEffects(env, c, opts) <==> opts.onFailure
  {
    hide FailEffects;
    EffectFacts(env, c, opts, "");
    assert OnFailure(c) in FailEffects(env, c, opts) <==> OnFailure(c) in multiset(FailEffects(env, c, opts));
  }

  /** Every way to fail before an address was shown tears the element down: no fetch
      at all, a rejected fetch, an answer without a loadable address, an error. */
  lemma EveryFailureTearsDown(env: Env, m: Model, c: nat, opts: Options, url: string)
    requires Waiting(m, c) && m.calls[c].opts == opts && OnFailure(c) !in m.log
    requires forall e :: e in m.log ==> e.call < |m.calls|
    ensures TornDown(Step(env, m, Rejected(c)), c, opts)
    ensures TornDown(Step(env, m, ErrorFired), c, opts)
    ensures !IsLoadable(env, url) ==> TornDown(Step(env, m, Answered(c, url)), c, opts)
    ensures !opts.hasFetch ==> TornDown(Step(env, m, Start(opts)), |m.calls|, opts)
  {
    hide IsLoadable, FailLatest, TornDown;
    FailLatestTearsDown(env, m);
    FailLatestTearsDown(env, m.(calls := m.calls[c := m.calls[c].(pending := false)]));
    FailLatestTearsDown(env, m.(calls := m.calls + [Call(opts, false, "", false, false)],
                                log := m.log + [Started(|m.calls|)]));
  }

  /** The address after `evs`, if it was `src` before them and no call acts. */
  function LastWritten(src: string, evs: seq<Event>): string
    decreases |evs|
  {
    if evs == [] then src
    else LastWritten(if evs[0].OutsideWrite? then evs[0].written else src, evs[1..])
  }

  /** An error fires somewhere in `evs` while the address is `url`. */
  predicate Torn(src: string, url: string, evs: seq<Event>)
    decreases |evs|
  {
    evs != [] &&
    ((evs[0].ErrorFired? && src == url)
     || Torn(if evs[0].OutsideWrite? then evs[0].written else src, url, evs[1..]))
  }

  /** Invocation `c` is the latest, has assigned `url` and has not failed. */
  ghost predicate Showing(m: Model, c: nat, opts: Options, url: string) {
    && c + 1 == |m.calls| && m.calls[c].opts == opts && url != ""
    && !m.calls[c].pending && !m.calls[c].notifiedFailure && m.calls[c].assignedUrl == url
    && OnFailure(c) !in m.log
  }

  /** An error that finds the address a call put there tears the element down; one
      that finds any other address changes nothing at all. */
  lemma ErrorHitsExactly(env: Env, m: Model, c: nat, opts: Options, url: string)
    requires Showing(m, c, opts, url)
    ensures m.src == url ==> TornDown(Step(env, m, ErrorFired), c, opts)
    ensures m.src != url ==> Step(env, m, ErrorFired) == m
  {
    hide FailLatest, TornDown;
    FailLatestTearsDown(env, m);
  }

  lemma ShowingStep(env: Env, m: Model, c: nat, opts: Options, url: string, ev: Event)
    requires Showing(m, c, opts, url) && !ev.Start? && !(ev.ErrorFired? && m.src == url)
    ensures Showing(Step(env, m, ev), c, opts, url)
    ensures Step(env, m, ev).src == if ev.OutsideWrite? then ev.written else m.src
    ensures Step(env, m, ev).classes == m.classes && Step(env, m, ev).log == m.log
  {
    hide FailLatest, ShowLatest, IsLoadable;
  }

  lemma {:induction false} ShowingRun(env: Env, m: Model, c: nat, opts: Options, url: string, evs: seq<Event>)
    requires Showing(m, c, opts, url) && forall ev :: ev in evs ==> !ev.Start?
    ensures var n := Run(env, m, evs);
            && (Live(n) <==> !Torn(m.src, url, evs))
            && (OnFailure(c) in n.log <==> opts.onFailure && Torn(m.src, url, evs))
            && (!Torn(m.src, url, evs) ==>
                  n.src == LastWritten(m.src, evs) && n.classes == m.classes && n.log == m.log)
            && (Torn(m.src, url, evs) && opts.placeholderClass != "" ==> opts.placeholderClass in n.classes)
    decreases |evs|
  {
    if evs != [] {
      hide Step, FailLatest;
      assert evs[0] in evs;
      if evs[0].ErrorFired? && m.src == url {
        ErrorHitsExactly(env, m, c, opts, url);
        AfterTearDown(env, Step(env, m, evs[0]), evs[1..]);
      } else {
        ShowingStep(env, m, c, opts, url, evs[0]);
        ShowingRun(env, Step(env, m, evs[0]), c, opts, url, evs[1..]);
      }
    }
  }

  lemma {:induction false} AfterTearDown(env: Env, m: Model, evs: seq<Event>)
    requires !Live(m) && forall ev :: ev in evs ==> !ev.Start?
    ensures var n := Run(env, m, evs);
            !Live(n) && n.classes == m.classes && n.log == m.log
    decreases |evs|
  {
    if evs != [] {
      assert evs[0] in evs;
      AfterTearDown(env, Step(env, m, evs[0]), evs[1..]);
    }
  }

  /** What becomes of a shown address until the next call starts: an error takes it
      away, the placeholder comes back and the failure is reported, if and only if one
      fires while the address on the element is still the one the call assigned.
      Otherwise the element shows what was written last, and nothing else changes. */
  lemma ErrorAfterShown(env: Env, m: Model, opts: Options, mid: seq<Event>, url: string, late: seq<Event>)
    requires opts.hasFetch && IsLoadable(env, url)
    requires forall e :: e in m.log ==> e.call < |m.calls|
    requires forall ev :: ev in mid ==> LetsWait(ev, |m.calls|)
    requires forall ev :: ev in late ==> !ev.Start?
    ensures var n := Run(env, m, [Start(opts)] + mid + [Answered(|m.calls|, url)] + late);
            && (Live(n) <==> !Torn(url, url, late))
            && (OnFailure(|m.calls|) in n.log <==> opts.onFailure && Torn(url, url, late))
            && (!Torn(url, url, late) ==> n.src == LastWritten(url, late))
            && (opts.placeholderClass != "" ==> (opts.placeholderClass in n.classes <==> Torn(url, url, late)))
  {
    hide IsLoadable, Step, Run, Torn, LastWritten, Showing, LetsWait, Live;
    var c := |m.calls|;
    var shown := Step(env, Run(env, Step(env, m, Start(opts)), mid), Answered(c, url));
    RunParts(env, m, opts, mid, Answered(c, url), late);
    AnswerShows(env, m, opts, mid, url);
    ShowingRun(env, shown, c, opts, url, late);
  }

  lemma AnswerShows(env: Env, m: Model, opts: Options, mid: seq<Event>, url: string)
    requires opts.hasFetch && IsLoadable(env, url)
    requires forall e :: e in m.log ==> e.call < |m.calls|
    requires forall ev :: ev in mid ==> LetsWait(ev, |m.calls|)
    ensures var n := Step(env, Run(env, Step(env, m, Start(opts)), mid), Answered(|m.calls|, url));
            && Showing(n, |m.calls|, opts, url) && n.src == url
            && (opts.placeholderClass != "" ==> opts.placeholderClass !in n.classes)
  {
    hide IsLoadable, Step, Run, Showing;
    var c := |m.calls|;
    var begun := Step(env, m, Start(opts));
    var waited := Run(env, begun, mid);
    LoadableExactly(env, url);
    StartWaits(env, m, opts);
    WaitDecides(env, begun, c, mid);
    QuietLog(env, begun, c, mid);
    WinnerShows(env, waited, c, url);
    WinnerIsShowing(env, waited, c, url);
  }

  /** While a call waits nothing is recorded. */
  lemma {:induction false} QuietLog(env: Env, m: Model, c: nat, mid: seq<Event>)
    requires Waiting(m, c) && forall ev :: ev in mid ==> LetsWait(ev, c)
    ensures Run(env, m, mid).log == m.log
    decreases |mid|
  {
    if mid != [] {
      assert mid[0] in mid;
      WaitingStep(env, m, mid[0], c);
      QuietStep(env, m, c, mid[0]);
      QuietLog(env, Step(env, m, mid[0]), c, mid[1..]);
    }
  }

  lemma QuietStep(env: Env, m: Model, c: nat, ev: Event)
    requires Waiting(m, c) && LetsWait(ev, c)
    ensures Step(env, m, ev).log == m.log
  {
  }

  lemma WinnerIsShowing(env: Env, m: Model, c: nat, url: string)
    requires Waiting(m, c) && IsLoadable(env, url) && url != "" && OnFailure(c) !in m.log
    ensures Showing(Step(env, m, Answered(c, url)), c, m.calls[c].opts, url)
  {
    hide IsLoadable, ShowEffects;
    var opts := m.calls[c].opts;
    EffectFacts(env, c, opts, url);
    assert OnFailure(c) in ShowEffects(env, c, opts, url) <==> OnFailure(c) in multiset(ShowEffects(env, c, opts, url));
  }

  // ─── The media parent ───

  /** Every change of the address by a call is followed at once by a reload of the
      media parent exactly when the element is a source inside one. */
  ghost predicate ParentTold(env: Env, log: seq<Effect>) {
    forall i :: 0 <= i < |log| ==> ToldAt(env, log, i)
  }

  predicate ToldAt(env: Env, log: seq<Effect>, i: nat)
    requires i < |log|
  {
    && (log[i].Assigned? || log[i].Cleared? ==>
          (env.isSource <==> i + 1 < |log| && log[i + 1] == ParentLoad(log[i].call)))
    && (log[i].ParentLoad? ==> i > 0 && (log[i - 1].Assigned? || log[i - 1].Cleared?))
  }

  lemma ParentToldConcat(env: Env, a: seq<Effect>, b: seq<Effect>)
    requires ParentTold(env, a) && ParentTold(env, b)
    requires a != [] && (a[|a| - 1].Assigned? || a[|a| - 1].Cleared?) ==> b == [] || !b[0].ParentLoad?
    ensures ParentTold(env, a + b)
  {
    forall i | 0 <= i < |a + b| ensures ToldAt(env, a + b, i) {
      if i < |a| {
        assert ToldAt(env, a, i) && (a + b)[i] == a[i];
        if i + 1 < |a| {
          assert (a + b)[i + 1] == a[i + 1];
        }
      } else {
        assert ToldAt(env, b, i - |a|) && (a + b)[i] == b[i - |a|];
        if i + 1 < |a + b| {
          assert (a + b)[i + 1] == b[i + 1 - |a|];
        }
      }
    }
  }

  lemma EffectsTellParent(env: Env, c: nat, opts: Options, url: string)
    ensures ParentTold(env, FailEffects(env, c, opts)) && ParentTold(env, ShowEffects(env, c, opts, url))
    ensures !FailEffects(env, c, opts)[0].ParentLoad? && !ShowEffects(env, c, opts, url)[0].ParentLoad?
  {
  }

  lemma AddedTellsParent(env: Env, m: Model, ev: Event)
    ensures ParentTold(env, Added(env, m, ev))
    ensures Added(env, m, ev) != [] ==> !Added(env, m, ev)[0].ParentLoad?
  {
    hide FailEffects, ShowEffects;
    EffectsNonEmpty(env);
    if ev.Start? {
      EffectsTellParent(env, |m.calls|, ev.opts, "");
      var tail := if ev.opts.hasFetch then [] else FailEffects(env, |m.calls|, ev.opts);
      ParentToldConcat(env, [Started(|m.calls|)], tail);
    } else if m.calls != [] {
      var k := |m.calls| - 1;
      EffectsTellParent(env, k, m.calls[k].opts, if ev.Answered? then ev.url else "");
    }
  }

  /** Over every run the parent is told of every change of the address, at once. */
  lemma {:induction false} ParentIsTold(env: Env, m: Model, evs: seq<Event>)
    requires ParentTold(env, m.log)
    ensures ParentTold(env, Run(env, m, evs).log)
    decreases |evs|
  {
    if evs != [] {
      hide Step, Added, ParentTold;
      StepLog(env, m, evs[0]);
      AddedTellsParent(env, m, evs[0]);
      ParentToldConcat(env, m.log, Added(env, m, evs[0]));
      ParentIsTold(env, Step(env, m, evs[0]), evs[1..]);
    }
  }
}
