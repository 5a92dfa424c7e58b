/** The external-identifier panel: adding a pair, removing one, and editing one as
    an add followed by a removal, against a server with fixed semantics. */
module ExternalIds {
  import opened Sequences
  import opened Text
  import opened UriPath

  const NAMESPACE_MAX_LENGTH: nat := 256
  const IDENTIFIER_MAX_LENGTH: nat := 1024

  /** One identifier; two are the same when both components are, verbatim. */
  datatype Ref = Ref(namespace: string, id: string)

  // ─── Validation ───

  datatype FieldError = Required | TooLong

  datatype Errors = Errors(namespace: Option<FieldError>, id: Option<FieldError>, duplicate: bool)

  function FieldCheck(value: string, most: nat): Option<FieldError> {
    if Length16(value) == 0 then Some(Required)
    else if Length16(value) > most then Some(TooLong)
    else None
  }

  function ValidateDraft(draft: Ref, existing: seq<Ref>, ignore: Option<Ref>): Errors {
    var ns := FieldCheck(draft.namespace, NAMESPACE_MAX_LENGTH);
    var id := FieldCheck(draft.id, IDENTIFIER_MAX_LENGTH);
    Errors(ns, id, ns.None? && id.None? && draft in existing && ignore != Some(draft))
  }

  predicate IsOk(e: Errors) {
    e.namespace.None? && e.id.None? && !e.duplicate
  }

  /** What the form accepts: both components given and within their bounds, and a pair
      the list does not show yet, unless it is the one being edited. */
  lemma AcceptsExactly(draft: Ref, existing: seq<Ref>, ignore: Option<Ref>)
    ensures IsOk(ValidateDraft(draft, existing, ignore)) <==>
            && draft.namespace != "" && Length16(draft.namespace) <= 256
            && draft.id != "" && Length16(draft.id) <= 1024
            && (draft in existing ==> ignore == Some(draft))
    ensures ValidateDraft(draft, existing, ignore).namespace.Some?
       <==> draft.namespace == "" || Length16(draft.namespace) > 256
    ensures ValidateDraft(draft, existing, ignore).id.Some? <==> draft.id == "" || Length16(draft.id) > 1024
  {
    assert draft.namespace != "" ==> Length16(draft.namespace) >= 1;
    assert draft.id != "" ==> Length16(draft.id) >= 1;
  }

  // ─── The server ───

  /** The API's attach: an append, unless the asset carries the pair already. */
  function Attach(server: seq<Ref>, p: Ref): seq<Ref> {
    if p in server then server else server + [p]
  }

  /** The API's detach: every entry equal to the pair goes. */
  function Detach(server: seq<Ref>, p: Ref): seq<Ref> {
    Filter((e: Ref) => e != p, server)
  }

  // ─── The path of a pair ───

  function DetachPath(assetId: string, p: Ref): string {
    "/assets/" + EncodeURIComponent(assetId) + "/external-ids/"
    + EncodeURIComponent(p.namespace) + "/" + EncodeURIComponent(p.id)
  }

  function DetachSegments(assetId: string, p: Ref): seq<string> {
    ["assets", EncodeURIComponent(assetId), "external-ids", EncodeURIComponent(p.namespace), EncodeURIComponent(p.id)]
  }

  /** The removal request is expressible as a path. */
  predicate Addressable(assetId: string, p: Ref) {
    !IsDots(assetId) && !IsDots(p.namespace) && !IsDots(p.id)
  }

  /** The path of a pair reaches the pair's own resource exactly when neither the
      asset id nor a component is a dot segment; it always splits back, decoded,
      into the asset and the pair. */
  lemma DetachPathAddresses(assetId: string, p: Ref)
    ensures RemoveDots(DetachPath(assetId, p), "") == DetachPath(assetId, p) <==> Addressable(assetId, p)
    ensures var parts := Split(DetachPath(assetId, p), '/');
            && |parts| == 6 && parts[1] == "assets" && parts[3] == "external-ids"
            && DecodeURIComponent(parts[2]) == Some(assetId)
            && DecodeURIComponent(parts[4]) == Some(p.namespace)
            && DecodeURIComponent(parts[5]) == Some(p.id)
  {
    DetachSegmentsFacts(assetId, p);
    SurvivesExactly(DetachSegments(assetId, p));
    PathSplits(DetachSegments(assetId, p));
    DecodeEncoded(assetId);
    DecodeEncoded(p.namespace);
    DecodeEncoded(p.id);
  }

  lemma DetachSegmentsFacts(assetId: string, p: Ref)
    ensures AllSegments(DetachSegments(assetId, p))
    ensures PathOf(DetachSegments(assetId, p)) == DetachPath(assetId, p)
    ensures NoDots(DetachSegments(assetId, p)) <==> Addressable(assetId, p)
  {
    hide PathOf, EncodeURIComponent;
    var a, n, i := EncodeURIComponent(assetId), EncodeURIComponent(p.namespace), EncodeURIComponent(p.id);
    EncodedHasNoSlash(assetId);
    EncodedHasNoSlash(p.namespace);
    EncodedHasNoSlash(p.id);
    EncodedDots(assetId);
    EncodedDots(p.namespace);
    EncodedDots(p.id);
    PathOfFive("assets", a, "external-ids", n, i);
    AssetPathJoins(a, "external-ids", "/external-ids");
    assert "/external-ids" + "/" == "/external-ids/";
    assert "/assets/" + a + "/external-ids" + "/" == "/assets/" + a + "/external-ids/";
    var s := DetachSegments(assetId, p);
    assert NoDots(s) <==> !IsDots(s[0]) && !IsDots(s[1]) && !IsDots(s[2]) && !IsDots(s[3]) && !IsDots(s[4]);
  }

  // ─── Where the removal of a pair with a dot component goes ───

  function AssetPath(assetId: string): string {
    "/assets/" + EncodeURIComponent(assetId)
  }

  /** The path a removal request is sent to once the URL parser is done with it. */
  function Landing(assetId: string, p: Ref): string {
    RemoveDots(DetachPath(assetId, p), "")
  }

  /** A dot component takes the removal to some other resource of the asset: one
      named by the other component, or the list itself. */
  lemma DotPairLandsElsewhere(assetId: string, other: string)
    requires !IsDots(assetId) && !IsDots(other)
    ensures var o := EncodeURIComponent(other);
            && Landing(assetId, Ref("..", other)) == AssetPath(assetId) + "/" + o
            && Landing(assetId, Ref(".", other)) == AssetPath(assetId) + "/external-ids/" + o
            && Landing(assetId, Ref(other, ".")) == AssetPath(assetId) + "/external-ids/" + o + "/"
            && Landing(assetId, Ref(other, "..")) == AssetPath(assetId) + "/external-ids/"
  {
    hide EncodeURIComponent, RemoveDots, DropLastSegment, DetachPath;
    DotNamespaceLands(assetId, ".", other);
    DotNamespaceLands(assetId, "..", other);
    DotIdLands(assetId, other, ".");
    DotIdLands(assetId, other, "..");
    var o := EncodeURIComponent(other);
    DropsPart(AssetPath(assetId), "external-ids");
    EncodedHasNoSlash(other);
    DropsPart(AssetPath(assetId) + "/external-ids", o);
    assert AssetPath(assetId) + "/" + "external-ids" == AssetPath(assetId) + "/external-ids";
    assert AssetPath(assetId) + "/external-ids" + "/" == AssetPath(assetId) + "/external-ids/";
    assert AssetPath(assetId) + "/external-ids" + "/" + o == AssetPath(assetId) + "/external-ids/" + o;
  }

  lemma PathFront(assetId: string)
    requires !IsDots(assetId)
    ensures var front := ["assets", EncodeURIComponent(assetId), "external-ids"];
            && AllSegments(front) && NoDots(front) && PathOf(front) == AssetPath(assetId) + "/external-ids"
  {
    hide EncodeURIComponent, PathOf;
    var id := EncodeURIComponent(assetId);
    EncodedHasNoSlash(assetId);
    EncodedDots(assetId);
    PathOfThree("assets", id, "external-ids");
    AssetPathJoins(id, "external-ids", "/external-ids");
  }

  lemma DotNamespaceLands(assetId: string, dots: string, other: string)
    requires !IsDots(assetId) && IsDots(dots) && !IsDots(other)
    ensures var list := AssetPath(assetId) + "/external-ids";
            Landing(assetId, Ref(dots, other))
            == (if dots == "." then list else DropLastSegment(list)) + "/" + EncodeURIComponent(other)
  {
    hide EncodeURIComponent, RemoveDots, DropLastSegment, PathOf;
    var front := ["assets", EncodeURIComponent(assetId), "external-ids"];
    var list, o := AssetPath(assetId) + "/external-ids", EncodeURIComponent(other);
    var buffer := if dots == "." then list else DropLastSegment(list);
    var last := "/" + dots + ("/" + o);
    PathFront(assetId);
    EncodedDots(dots);
    EncodedDots(other);
    EncodedHasNoSlash(other);
    assert DetachPath(assetId, Ref(dots, other)) == list + last;
    PrefixMoves(front, last, "");
    assert "" + PathOf(front) == list;
    DotSegmentGoes(dots, "/" + o, list);
    PathOfOne(o);
    PrefixMoves([o], "", buffer);
    assert PathOf([o]) + "" == "/" + o && buffer + ("/" + o) == buffer + "/" + o;
    NothingLeft(buffer + PathOf([o]));
  }

  lemma DotIdLands(assetId: string, other: string, dots: string)
    requires !IsDots(assetId) && IsDots(dots) && !IsDots(other)
    ensures var pair := AssetPath(assetId) + "/external-ids" + "/" + EncodeURIComponent(other);
            Landing(assetId, Ref(other, dots)) == (if dots == "." then pair else DropLastSegment(pair)) + "/"
  {
    hide EncodeURIComponent, RemoveDots, DropLastSegment, PathOf;
    var front := ["assets", EncodeURIComponent(assetId), "external-ids"];
    var list, o := AssetPath(assetId) + "/external-ids", EncodeURIComponent(other);
    var last := "/" + dots + "";
    PathFront(assetId);
    EncodedDots(dots);
    EncodedDots(other);
    EncodedHasNoSlash(other);
    assert DetachPath(assetId, Ref(other, dots)) == list + (("/" + o) + last);
    PrefixMoves(front, ("/" + o) + last, "");
    assert "" + PathOf(front) == list;
    PathOfOne(o);
    PrefixMoves([o], last, list);
    assert list + PathOf([o]) == list + "/" + o;
    DotSegmentGoes(dots, "", list + "/" + o);
  }

  lemma PathOfOne(a: string)
    ensures PathOf([a]) == "/" + a
  {
    assert [a][1..] == [];
    assert PathOf([a]) == "/" + a + PathOf([]);
  }

  lemma NothingLeft(output: string)
    ensures RemoveDots("", output) == output
  {
  }

  /** The pair `..`, `lock` is removed by a request to the asset's delete lock. */
  lemma LockPairLandsOnTheLock(assetId: string)
    requires !IsDots(assetId)
    ensures !Addressable(assetId, Ref("..", "lock"))
    ensures Landing(assetId, Ref("..", "lock")) == AssetPath(assetId) + "/lock"
  {
    hide RemoveDots, DetachPath;
    DotPairLandsElsewhere(assetId, "lock");
    assert EncodeURIComponent("lock") == "lock" by {
      assert "lock"[1..] == "ock" && "ock"[1..] == "ck" && "ck"[1..] == "k" && "k"[1..] == "";
      assert EncodeURIComponent("k") == "k" && EncodeURIComponent("ck") == "ck";
      assert EncodeURIComponent("ock") == "ock";
    }
  }

  // ─── The panel and the server it edits ───

  datatype Report = Added | Edited | Removed | Refreshed | Unchanged | Invalid | Cancelled | HalfDone | Failed

  /** How far one invocation of a handler is. Any number of them may be open: the
      controls of the block come back to life whenever it is redrawn. */
  datatype Phase =
    | Posting(next: Ref, original: Option<Ref>)
    | Deleting(next: Ref, old': Ref)
    | Confirming(ref: Ref)
    | Removing(ref: Ref)
    | Rereading(report: Report)
    | Done(report: Report)

  datatype Answer = Ok | Status(code: int) | Lost

  /** `offered` says whether the block as last drawn has controls; `underWay` holds the
      re-reads the server has answered but whose answers are still under way. */
  datatype Model = Model(assetId: string, server: seq<Ref>, entries: seq<Ref>, usable: bool, canChange: bool,
                         offered: bool, open: seq<Phase>, underWay: map<nat, seq<Ref>>)

  /** `Confirm` answers the dialog a removal opens; by then the block may have been
      redrawn without controls. `Settle` answers the open write of invocation `k`: an
      `Ok` write was applied, and one that failed or whose answer was lost may have
      been. `RefreshCalled` is the page asking for a re-read. */
  datatype Event =
    | Submit(draft: Ref, original: Option<Ref>)
    | RemoveClicked(entry: Ref)
    | Confirm(k: nat, yes: bool)
    | RefreshCalled
    | Settle(k: nat, answer: Answer, applied: bool)
    | ServerReads(k: nat)
    | Arrives(k: nat, ok: bool)

  predicate Revokes(answer: Answer) {
    answer == Status(403)
  }

  predicate Refreshes(answer: Answer) {
    answer == Status(409) || answer == Status(404)
  }

  function Begun(m: Model, p: Phase): Model {
    m.(open := m.open + [p])
  }

  function SubmitStep(m: Model, draft: Ref, original: Option<Ref>): Model {
    if !IsOk(ValidateDraft(draft, m.entries, original)) then Begun(m, Done(Invalid))
    else if original == Some(draft) then Begun(m, Done(Unchanged)).(offered := m.canChange && m.usable)
    else Begun(m, Posting(draft, original))
  }

  /** The server after a removal request: nothing happens to the identifiers when
      the path names some other resource. */
  function AfterDelete(m: Model, p: Ref, answer: Answer, applied: bool): seq<Ref> {
    if (answer.Ok? || applied) && Addressable(m.assetId, p) then Detach(m.server, p) else m.server
  }

  function AfterWrite(m: Model, phase: Phase, answer: Answer, applied: bool): seq<Ref> {
    match phase
    case Posting(next, _) => if answer.Ok? || applied then Attach(m.server, next) else m.server
    case Deleting(_, p) => AfterDelete(m, p, answer, applied)
    case Removing(p) => AfterDelete(m, p, answer, applied)
    case _ => m.server
  }

  /** Where an invocation goes from the answer to its write. */
  function AfterAnswer(phase: Phase, answer: Answer): Phase {
    match phase
    case Posting(next, original) =>
      if answer.Ok? then (if original.Some? then Deleting(next, original.value) else Rereading(Added))
      else if Refreshes(answer) || Revokes(answer) then Rereading(Failed) else Done(Failed)
    case Deleting(_, _) => Rereading(if answer.Ok? then Edited else HalfDone)
    case Removing(_) => Rereading(if answer.Ok? then Removed else Failed)
    case other => other
  }

  function SettleStep(m: Model, k: nat, answer: Answer, applied: bool): Model {
    if k >= |m.open| then m
    else
      var phase := m.open[k];
      m.(server := AfterWrite(m, phase, answer, applied),
         open := m.open[k := AfterAnswer(phase, answer)],
         canChange := m.canChange && !((phase.Posting? || phase.Removing?) && Revokes(answer)))
  }

  function ConfirmStep(m: Model, k: nat, yes: bool): Model {
    if k < |m.open| && m.open[k].Confirming?
    then m.(open := m.open[k := if yes then Removing(m.open[k].ref) else Done(Cancelled)]) else m
  }

  function ReadStep(m: Model, k: nat): Model {
    if k < |m.open| && m.open[k].Rereading? && k !in m.underWay then m.(underWay := m.underWay[k := m.server]) else m
  }

  function ArriveStep(m: Model, k: nat, ok: bool): Model {
    if k >= |m.open| || !m.open[k].Rereading? || (ok && k !in m.underWay) then m
    else m.(entries := if ok then m.underWay[k] else [], usable := ok, offered := m.canChange && ok,
            open := m.open[k := Done(m.open[k].report)], underWay := m.underWay - {k})
  }

  function Step(m: Model, ev: Event): Model {
    match ev
    case Submit(draft, original) => if m.offered then SubmitStep(m, draft, original) else m
    case RemoveClicked(entry) => if m.offered then Begun(m, Confirming(entry)) else m
    case Confirm(k, yes) => ConfirmStep(m, k, yes)
    case RefreshCalled => Begun(m, Rereading(Refreshed))
    case Settle(k, answer, applied) => SettleStep(m, k, answer, applied)
    case ServerReads(k) => ReadStep(m, k)
    case Arrives(k, ok) => ArriveStep(m, k, ok)
  }

  function Run(m: Model, evs: seq<Event>): Model
    decreases |evs|
  {
    if evs == [] then m else Run(Step(m, evs[0]), evs[1..])
  }

  class ExternalIdsPanel {
    const assetId: string
    ghost var server: seq<Ref>
    ghost var underWay: map<nat, seq<Ref>>
    var entries: seq<Ref>
    var usable: bool
    var canChange: bool
    var offered: bool
    var open: seq<Phase>

    ghost function Observed(): Model
      reads this
    {
      Model(assetId, server, entries, usable, canChange, offered, open, underWay)
    }

    constructor (assetId: string, server: seq<Ref>, canChange: bool)
      ensures Observed() == Model(assetId, server, server, true, canChange, canChange, [], map[])
    {
      this.assetId, this.server, this.underWay, this.entries := assetId, server, map[], server;
      this.usable, this.canChange, this.offered, this.open := true, canChange, canChange, [];
    }

    /** The submit handler of the add and edit forms, up to its first `await`. */
    method SubmitForm(draft: Ref, original: Option<Ref>)
      modifies this
      ensures Observed() == Step(old(Observed()), Submit(draft, original))
    {
      if !offered { return; }
      var validation := ValidateDraft(draft, entries, original);
      if !IsOk(validation) {
        open := open + [Done(Invalid)];
        return;
      }
      if original.Some? && original.value == draft {
        offered := canChange && usable;
        open := open + [Done(Unchanged)];
        return;
      }
      open := open + [Posting(draft, original)];
    }

    method ClickRemove(entry: Ref)
      modifies this
      ensures Observed() == Step(old(Observed()), RemoveClicked(entry))
    {
      if !offered { return; }
      open := open + [Confirming(entry)];
    }

    /** The rest of the removal handler once its dialog is answered. */
    method ConfirmSettles(k: nat, yes: bool)
      modifies this
      ensures Observed() == Step(old(Observed()), Confirm(k, yes))
    {
      if k >= |open| || !open[k].Confirming? { return; }
      if !yes {
        open := open[k := Done(Cancelled)];
        return;
      }
      open := open[k := Removing(open[k].ref)];
    }

    /** The block's own `refresh`, up to its `await`. */
    method CallRefresh()
      modifies this
      ensures Observed() == Step(old(Observed()), RefreshCalled)
    {
      open := open + [Rereading(Refreshed)];
    }

    /** The write on the server, if it takes place. */
    ghost method ServerWrites(k: nat, answer: Answer, applied: bool)
      requires k < |open|
      modifies this`server
      ensures server == AfterWrite(old(Observed()), open[k], answer, applied)
    {
      if !answer.Ok? && !applied { return; }
      match open[k] {
        case Posting(next, _) => server := Attach(server, next);
        case Deleting(_, p) => if Addressable(assetId, p) { server := Detach(server, p); }
        case Removing(p) => if Addressable(assetId, p) { server := Detach(server, p); }
        case _ =>
      }
    }

    /** The rest of handler `k` once its open write is answered. */
    method WriteSettles(k: nat, answer: Answer, ghost applied: bool)
      modifies this
      ensures Observed() == Step(old(Observed()), Settle(k, answer, applied))
    {
      if k >= |open| { return; }
      ServerWrites(k, answer, applied);
      match open[k] {
        case Posting(next, original) =>
          if answer.Ok? {
            open := open[k := if original.Some? then Deleting(next, original.value) else Rereading(Added)];
            return;
          }
          if Revokes(answer) { canChange := false; }
          open := open[k := if Refreshes(answer) || Revokes(answer) then Rereading(Failed) else Done(Failed)];
        case Deleting(_, _) =>
          open := open[k := Rereading(if answer.Ok? then Edited else HalfDone)];
        case Removing(_) =>
          if Revokes(answer) { canChange := false; }
          open := open[k := Rereading(if answer.Ok? then Removed else Failed)];
        case _ =>
      }
    }

    ghost method ListRead(k: nat)
      modifies this`underWay
      ensures Observed() == Step(old(Observed()), ServerReads(k))
    {
      if k < |open| && open[k].Rereading? && k !in underWay {
        underWay := underWay[k := server];
      }
    }

    /** The re-read of handler `k` comes back with what the server read, or fails. */
    method RereadArrives(k: nat, ok: bool, answer: seq<Ref>)
      requires ok ==> k in underWay && answer == underWay[k]
      modifies this
      ensures Observed() == Step(old(Observed()), Arrives(k, ok))
    {
      if k >= |open| || !open[k].Rereading? { return; }
      entries := if ok then answer else [];
      usable := ok;
      offered := canChange && usable;
      open := open[k := Done(open[k].report)];
      underWay := underWay - {k};
    }
  }

  // ─── Any number of operations, overlapping as they may ───

  /** The pairs an event, or an open invocation, is about. */
  function Named(ev: Event): set<Ref> {
    match ev
    case Submit(draft, original) => {draft} + (if original.Some? then {original.value} else {})
    case RemoveClicked(entry) => {entry}
    case _ => {}
  }

  function PairsOf(p: Phase): set<Ref> {
    match p
    case Posting(next, original) => {next} + (if original.Some? then {original.value} else {})
    case Deleting(next, old') => {next, old'}
    case Confirming(ref) => {ref}
    case Removing(ref) => {ref}
    case _ => {}
  }

  ghost predicate Within(m: Model, evs: seq<Event>, touched: set<Ref>) {
    && (forall j :: 0 <= j < |m.open| ==> PairsOf(m.open[j]) <= touched)
    && (forall ev :: ev in evs ==> Named(ev) <= touched)
  }

  function Untouched(touched: set<Ref>, server: seq<Ref>): seq<Ref> {
    Filter((e: Ref) => e !in touched, server)
  }

  lemma {:induction false} FilterFilter<T>(p: T -> bool, q: T -> bool, s: seq<T>)
    requires forall x :: x in s && p(x) ==> q(x)
    ensures Filter(p, Filter(q, s)) == Filter(p, s)
  {
    if s != [] {
      FilterFilter(p, q, s[1..]);
      if q(s[0]) {
        FilterCons(p, s[0], Filter(q, s[1..]));
      } else {
        assert [] + Filter(q, s[1..]) == Filter(q, s[1..]);
      }
    }
  }

  lemma WritesLeaveOthers(touched: set<Ref>, server: seq<Ref>, p: Ref)
    requires p in touched
    ensures Untouched(touched, Attach(server, p)) == Untouched(touched, server)
    ensures Untouched(touched, Detach(server, p)) == Untouched(touched, server)
  {
    var keep := (e: Ref) => e !in touched;
    FilterConcat(keep, server, [p]);
    assert Filter(keep, [p]) == [];
    assert Filter(keep, server) + [] == Filter(keep, server);
    FilterFilter(keep, (e: Ref) => e != p, server);
  }

  lemma StepLeavesOthers(m: Model, ev: Event, touched: set<Ref>)
    requires Within(m, [ev], touched)
    ensures Within(Step(m, ev), [], touched)
    ensures Untouched(touched, Step(m, ev).server) == Untouched(touched, m.server)
  {
    hide ValidateDraft, Addressable, Untouched, Attach, Detach;
    assert ev in [ev];
    if ev.Settle? && ev.k < |m.open| {
      match m.open[ev.k]
      case Posting(next, _) => WritesLeaveOthers(touched, m.server, next);
      case Deleting(_, p) => WritesLeaveOthers(touched, m.server, p);
      case Removing(p) => WritesLeaveOthers(touched, m.server, p);
      case _ =>
    }
  }

  /** Over any run of adds, edits and removals, overlapping as they may and whatever
      fails, the pairs no operation names are all still there, in their original order. */
  lemma {:induction false} UnnamedPairsKeepOrder(m: Model, evs: seq<Event>, touched: set<Ref>)
    requires Within(m, evs, touched)
    ensures Untouched(touched, Run(m, evs).server) == Untouched(touched, m.server)
    decreases |evs|
  {
    if evs != [] {
      assert evs[0] in evs;
      StepLeavesOthers(m, evs[0], touched);
      UnnamedPairsKeepOrder(Step(m, evs[0]), evs[1..], touched);
    }
  }

  // ─── One edit, whatever fails and whatever else goes on ───

  predicate Replaced(a: Ref, b: Ref, m: Model) {
    b in m.server && a !in m.server
  }

  /** Nobody but invocation `k` is about `a` or `b`. */
  ghost predicate Alone(m: Model, k: nat, a: Ref, b: Ref) {
    forall j :: 0 <= j < |m.open| && j != k ==> a !in PairsOf(m.open[j]) && b !in PairsOf(m.open[j])
  }

  ghost predicate LeavesAlone(ev: Event, a: Ref, b: Ref) {
    a !in Named(ev) && b !in Named(ev)
  }

  /** A removal is answered with success only if it reaches the pair, or if what it
      reaches instead answers a DELETE with success; `answered` says which paths do. */
  predicate Possible(m: Model, ev: Event, answered: string -> bool) {
    ev.Settle? && ev.answer.Ok? && ev.k < |m.open| ==>
      match m.open[ev.k]
      case Deleting(_, p) => Addressable(m.assetId, p) || answered(Landing(m.assetId, p))
      case Removing(p) => Addressable(m.assetId, p) || answered(Landing(m.assetId, p))
      case _ => true
  }

  /** The edit of `a` into `b` by invocation `k` so far: the asset carries one of the
      two, and the removal waits for the add. */
  ghost predicate EditSafe(a: Ref, b: Ref, m: Model, k: nat) {
    && k < |m.open| && (a in m.server || b in m.server)
    && match m.open[k]
       case Posting(next, original) => next == b && original == Some(a) && a in m.server
       case Deleting(next, old') => next == b && old' == a && b in m.server
       case Rereading(report) => Reported(a, b, m, report)
       case Done(report) => Reported(a, b, m, report)
       case Confirming(_) => false
       case Removing(_) => false
  }

  predicate Reported(a: Ref, b: Ref, m: Model, report: Report) {
    report in {Edited, HalfDone, Failed} && (report == Edited && Addressable(m.assetId, a) ==> Replaced(a, b, m))
  }

  lemma WriteFacts(server: seq<Ref>, p: Ref)
    ensures p in Attach(server, p) && p !in Detach(server, p) && server <= Attach(server, p)
    ensures p in server ==> Attach(server, p) == server
    ensures forall q :: q != p ==> (q in Attach(server, p) <==> q in server)
    ensures forall q :: q != p ==> (q in Detach(server, p) <==> q in server)
  {
  }

  /** A write about other pairs leaves `q` as it was. */
  lemma OtherWrite(m: Model, phase: Phase, answer: Answer, applied: bool, q: Ref)
    requires q !in PairsOf(phase)
    ensures q in AfterWrite(m, phase, answer, applied) <==> q in m.server
  {
    hide Addressable, Attach, Detach;
    match phase
    case Posting(next, _) => WriteFacts(m.server, next);
    case Deleting(_, p) => WriteFacts(m.server, p);
    case Removing(p) => WriteFacts(m.server, p);
    case _ =>
  }

  lemma OwnAnswer(a: Ref, b: Ref, m: Model, k: nat, answer: Answer, applied: bool)
    requires a != b && EditSafe(a, b, m, k)
    ensures EditSafe(a, b, SettleStep(m, k, answer, applied), k)
  {
    hide Addressable, Attach, Detach;
    WriteFacts(m.server, a);
    WriteFacts(m.server, b);
  }

  lemma OthersAnswer(a: Ref, b: Ref, m: Model, k: nat, j: nat, answer: Answer, applied: bool)
    requires EditSafe(a, b, m, k) && Alone(m, k, a, b) && j != k
    ensures EditSafe(a, b, SettleStep(m, j, answer, applied), k)
  {
    hide Addressable, AfterWrite, AfterAnswer;
    if j < |m.open| {
      OtherWrite(m, m.open[j], answer, applied, a);
      OtherWrite(m, m.open[j], answer, applied, b);
    }
  }

  lemma StepKeepsAlone(a: Ref, b: Ref, m: Model, k: nat, ev: Event)
    requires k < |m.open| && Alone(m, k, a, b) && LeavesAlone(ev, a, b)
    ensures Alone(Step(m, ev), k, a, b) && Step(m, ev).assetId == m.assetId && |m.open| <= |Step(m, ev).open|
  {
    hide ValidateDraft, AfterWrite;
  }

  /** Without an answer to a write the server stays, and invocation `k` at most ends. */
  lemma CalmStep(m: Model, k: nat, ev: Event)
    requires !ev.Settle? && k < |m.open| && !m.open[k].Confirming?
    ensures var n := Step(m, ev);
            && n.server == m.server && k < |n.open|
            && (n.open[k] == m.open[k] || (m.open[k].Rereading? && n.open[k] == Done(m.open[k].report)))
  {
    hide ValidateDraft;
  }

  lemma StepKeepsEditSafe(a: Ref, b: Ref, m: Model, k: nat, ev: Event)
    requires a != b && EditSafe(a, b, m, k) && Alone(m, k, a, b) && LeavesAlone(ev, a, b)
    ensures EditSafe(a, b, Step(m, ev), k) && Alone(Step(m, ev), k, a, b)
    ensures Step(m, ev).assetId == m.assetId
  {
    hide Addressable, SettleStep, Alone;
    StepKeepsAlone(a, b, m, k, ev);
    if ev.Settle? {
      if ev.k == k {
        OwnAnswer(a, b, m, k, ev.answer, ev.applied);
      } else {
        OthersAnswer(a, b, m, k, ev.k, ev.answer, ev.applied);
      }
    } else {
      hide Step;
      CalmStep(m, k, ev);
    }
  }

  lemma {:induction false} RunKeepsEditSafe(a: Ref, b: Ref, m: Model, k: nat, evs: seq<Event>)
    requires a != b && EditSafe(a, b, m, k) && Alone(m, k, a, b)
    requires forall ev :: ev in evs ==> LeavesAlone(ev, a, b)
    ensures EditSafe(a, b, Run(m, evs), k) && Run(m, evs).assetId == m.assetId
    decreases |evs|
  {
    if evs != [] {
      assert evs[0] in evs;
      StepKeepsEditSafe(a, b, m, k, evs[0]);
      RunKeepsEditSafe(a, b, Step(m, evs[0]), k, evs[1..]);
    }
  }

  /** The submitted edit is valid, changes something, and is nobody else's business. */
  ghost predicate Accepts(m: Model, draft: Ref, original: Ref) {
    && m.offered && draft != original && IsOk(ValidateDraft(draft, m.entries, Some(original)))
    && Alone(m, |m.open|, original, draft)
  }

  function EditBegun(m: Model, draft: Ref, original: Ref): Model {
    Step(m, Submit(draft, Some(original)))
  }

  /** An accepted edit, at every step and for every failure, lost answers included,
      and with any operations on other pairs going on beside it: the asset carries
      the old pair or the new one, and every pair nobody names stays where it was. */
  lemma EditNeverLosesBoth(m: Model, draft: Ref, original: Ref, evs: seq<Event>, touched: set<Ref>)
    requires Accepts(m, draft, original) && original in m.server
    requires forall ev :: ev in evs ==> LeavesAlone(ev, original, draft)
    requires Within(m, evs, touched) && {draft, original} <= touched
    ensures var n := Run(EditBegun(m, draft, original), evs);
            && (original in n.server || draft in n.server)
            && Untouched(touched, n.server) == Untouched(touched, m.server)
            && |m.open| < |n.open| && (n.open[|m.open|].Deleting? ==> draft in n.server)
  {
    var begun := EditBegun(m, draft, original);
    assert EditSafe(original, draft, begun, |m.open|);
    RunKeepsEditSafe(original, draft, begun, |m.open|, evs);
    UnnamedPairsKeepOrder(begun, evs, touched);
  }

  ghost predicate PossibleRun(m: Model, evs: seq<Event>, answered: string -> bool)
    decreases |evs|
  {
    evs == [] || (Possible(m, evs[0], answered) && PossibleRun(Step(m, evs[0]), evs[1..], answered))
  }

  /** Events about other pairs, and the answers, of a run that can happen. */
  ghost predicate EditRun(m: Model, draft: Ref, original: Ref, evs: seq<Event>, answered: string -> bool) {
    && PossibleRun(EditBegun(m, draft, original), evs, answered)
    && forall ev :: ev in evs ==> LeavesAlone(ev, original, draft)
  }

  ghost predicate TellsTheTruth(m: Model, draft: Ref, original: Ref, evs: seq<Event>) {
    var n := Run(EditBegun(m, draft, original), evs);
    |m.open| < |n.open| && n.open[|m.open|] == Done(Edited) ==> Replaced(original, draft, n)
  }

  /** A reported edit means the new pair is there and the old one is gone, in every
      run that can happen, exactly when the old pair's removal is expressible as a
      path or what its path reaches instead answers no DELETE with success. */
  lemma ReportedEditIsTrueExactly(m: Model, draft: Ref, original: Ref, answered: string -> bool)
    requires Accepts(m, draft, original) && original in m.server
    ensures (forall evs :: EditRun(m, draft, original, evs, answered) ==> TellsTheTruth(m, draft, original, evs))
       <==> Addressable(m.assetId, original) || !answered(Landing(m.assetId, original))
  {
    hide Addressable, Landing, ValidateDraft;
    var begun := EditBegun(m, draft, original);
    if Addressable(m.assetId, original) || !answered(Landing(m.assetId, original)) {
      forall evs | EditRun(m, draft, original, evs, answered) ensures TellsTheTruth(m, draft, original, evs) {
        assert EditSafe(original, draft, begun, |m.open|);
        RunKeepsEditSafe(original, draft, begun, |m.open|, evs);
        if !Addressable(m.assetId, original) {
          assert !SaysEdited(begun, |m.open|);
          NeverEdited(original, draft, begun, |m.open|, evs, answered);
        }
      }
    } else {
      FalseReport(m, draft, original, answered);
    }
  }

  predicate SaysEdited(m: Model, k: nat) {
    k < |m.open| && (m.open[k] == Rereading(Edited) || m.open[k] == Done(Edited))
  }

  lemma InRange(a: Ref, b: Ref, m: Model, k: nat)
    requires EditSafe(a, b, m, k)
    ensures k < |m.open|
  {
  }

  lemma NotYetEdited(a: Ref, b: Ref, m: Model, k: nat, ev: Event, answered: string -> bool)
    requires EditSafe(a, b, m, k) && Possible(m, ev, answered) && !SaysEdited(m, k)
    requires !Addressable(m.assetId, a) && !answered(Landing(m.assetId, a))
    ensures !SaysEdited(Step(m, ev), k)
  {
    hide Addressable, Landing, ValidateDraft, AfterWrite, Reported;
  }

  /** Without an answer to the removal the edit is never reported as done. */
  lemma {:induction false} NeverEdited(a: Ref, b: Ref, m: Model, k: nat, evs: seq<Event>, answered: string -> bool)
    requires a != b && EditSafe(a, b, m, k) && Alone(m, k, a, b)
    requires forall ev :: ev in evs ==> LeavesAlone(ev, a, b)
    requires !Addressable(m.assetId, a) && !answered(Landing(m.assetId, a)) && PossibleRun(m, evs, answered)
    requires !SaysEdited(m, k)
    ensures k < |Run(m, evs).open| && !SaysEdited(Run(m, evs), k)
    decreases |evs|
  {
    if evs != [] {
      hide Addressable, Landing, Step, EditSafe, Alone, Possible;
      assert evs[0] in evs;
      StepKeepsEditSafe(a, b, m, k, evs[0]);
      NotYetEdited(a, b, m, k, evs[0], answered);
      InRange(a, b, Step(m, evs[0]), k);
      NeverEdited(a, b, Step(m, evs[0]), k, evs[1..], answered);
    }
  }

  /** The run that ends in a false report: both writes succeed, and so does the re-read. */
  lemma FalseReport(m: Model, draft: Ref, original: Ref, answered: string -> bool)
    requires Accepts(m, draft, original) && original in m.server
    requires !Addressable(m.assetId, original) && answered(Landing(m.assetId, original))
    ensures exists evs :: EditRun(m, draft, original, evs, answered) && !TellsTheTruth(m, draft, original, evs)
  {
    hide Addressable, Landing, ValidateDraft, Attach, Detach;
    var k := |m.open|;
    var begun := EditBegun(m, draft, original);
    var yes := Settle(k, Ok, true);
    var evs := [yes, yes, ServerReads(k), Arrives(k, true)];
    WriteFacts(m.server, draft);
    RunFour(begun, yes, yes, ServerReads(k), Arrives(k, true));
    FourPossible(begun, yes, ServerReads(k), Arrives(k, true), answered);
    assert EditRun(m, draft, original, evs, answered) && !TellsTheTruth(m, draft, original, evs);
  }

  lemma RunFour(m: Model, a: Event, b: Event, c: Event, d: Event)
    ensures Run(m, [a, b, c, d]) == Step(Step(Step(Step(m, a), b), c), d)
  {
    hide Step;
    assert [a, b, c, d][1..] == [b, c, d] && [b, c, d][1..] == [c, d] && [c, d][1..] == [d] && [d][1..] == [];
    assert Run(Step(m, a), [b, c, d]) == Run(Step(Step(m, a), b), [c, d]);
    assert Run(Step(Step(m, a), b), [c, d]) == Run(Step(Step(Step(m, a), b), c), [d]);
    assert Run(Step(Step(Step(m, a), b), c), [d]) == Run(Step(Step(Step(Step(m, a), b), c), d), []);
  }

  lemma FourPossible(m: Model, yes: Event, c: Event, d: Event, answered: string -> bool)
    requires Possible(m, yes, answered) && Possible(Step(m, yes), yes, answered)
    requires !c.Settle? && !d.Settle?
    ensures PossibleRun(m, [yes, yes, c, d], answered)
  {
    hide Step;
    var n := Step(m, yes);
    var o := Step(n, yes);
    assert [yes, yes, c, d][1..] == [yes, c, d] && [yes, c, d][1..] == [c, d] && [c, d][1..] == [d] && [d][1..] == [];
    assert PossibleRun(Step(o, c), [d], answered);
    assert PossibleRun(o, [c, d], answered);
    assert PossibleRun(n, [yes, c, d], answered);
  }

  // ─── What happens when nothing goes wrong, and when the answer says no ───

  lemma RunOne(m: Model, ev: Event)
    ensures Run(m, [ev]) == Step(m, ev)
  {
    assert [ev][1..] == [];
  }

  lemma RunTwo(m: Model, a: Event, b: Event)
    ensures Run(m, [a, b]) == Step(Step(m, a), b)
  {
    hide Step;
    assert [a, b][1..] == [b];
    RunOne(Step(m, a), b);
  }

  lemma RunThree(m: Model, a: Event, b: Event, c: Event)
    ensures Run(m, [a, b, c]) == Step(Step(Step(m, a), b), c)
  {
    hide Step;
    assert [a, b, c][1..] == [b, c];
    RunTwo(Step(m, a), b, c);
  }

  /** An add that goes well is reported as added, and the list shows the server with the
      pair at its end. */
  lemma AddGoesWell(m: Model, draft: Ref)
    requires m.offered && IsOk(ValidateDraft(draft, m.entries, None)) && |m.open| !in m.underWay
    ensures var k := |m.open|;
            var n := Run(Step(m, Submit(draft, None)), [Settle(k, Ok, true), ServerReads(k), Arrives(k, true)]);
            && |n.open| == k + 1 && n.open[k] == Done(Added) && n.server == Attach(m.server, draft)
            && n.entries == n.server && n.usable && n.offered == m.canChange
  {
    hide ValidateDraft, Attach;
    var k := |m.open|;
    RunThree(Step(m, Submit(draft, None)), Settle(k, Ok, true), ServerReads(k), Arrives(k, true));
  }

  /** An edit that goes well is reported as edited; the new pair is there, the old is gone. */
  lemma EditGoesWell(m: Model, draft: Ref, original: Ref)
    requires Accepts(m, draft, original) && Addressable(m.assetId, original) && |m.open| !in m.underWay
    ensures var k := |m.open|;
            var n := Run(EditBegun(m, draft, original),
                         [Settle(k, Ok, true), Settle(k, Ok, true), ServerReads(k), Arrives(k, true)]);
            && |n.open| == k + 1 && n.open[k] == Done(Edited) && n.server == Detach(Attach(m.server, draft), original)
            && n.entries == n.server && n.usable
  {
    hide ValidateDraft, Attach, Detach, Addressable;
    var k := |m.open|;
    RunFour(EditBegun(m, draft, original), Settle(k, Ok, true), Settle(k, Ok, true), ServerReads(k), Arrives(k, true));
  }

  /** A confirmed removal that goes well is reported as removed; one that is declined
      sends nothing. */
  lemma RemovalGoesWell(m: Model, entry: Ref)
    requires m.offered && Addressable(m.assetId, entry) && |m.open| !in m.underWay
    ensures var k := |m.open|;
            var n := Run(Step(m, RemoveClicked(entry)),
                         [Confirm(k, true), Settle(k, Ok, true), ServerReads(k), Arrives(k, true)]);
            && |n.open| == k + 1 && n.open[k] == Done(Removed) && n.server == Detach(m.server, entry)
            && n.entries == n.server && n.usable
    ensures var k := |m.open|;
            var n := Step(Step(m, RemoveClicked(entry)), Confirm(k, false));
            |n.open| == k + 1 && n.open[k] == Done(Cancelled) && n.server == m.server
  {
    hide Detach, Addressable;
    var k := |m.open|;
    RunFour(Step(m, RemoveClicked(entry)), Confirm(k, true), Settle(k, Ok, true), ServerReads(k), Arrives(k, true));
  }

  /** A write that fails is reported as failed, half done if it was an edit's removal;
      the list is read again, except after an add that failed for any other reason than
      a conflict, a missing asset or a refusal. A refusal retires the controls, unless it
      was that removal's. */
  lemma FailuresExactly(m: Model, k: nat, answer: Answer, applied: bool)
    requires k < |m.open| && !answer.Ok?
    ensures var n := Step(m, Settle(k, answer, applied));
            var refused := answer == Status(403);
            && (m.open[k].Posting? ==>
                  && n.open[k] == (if refused || answer == Status(404) || answer == Status(409)
                                   then Rereading(Failed) else Done(Failed))
                  && n.canChange == (m.canChange && !refused))
            && (m.open[k].Deleting? ==> n.open[k] == Rereading(HalfDone) && n.canChange == m.canChange)
            && (m.open[k].Removing? ==>
                  n.open[k] == Rereading(Failed) && n.canChange == (m.canChange && !refused))
  {
  }

  /** The block is drawn anew when a re-read arrives and when an edit changed nothing, and
      then has controls exactly if changes are allowed and the list is usable. */
  lemma ControlsExactly(m: Model, ev: Event)
    ensures var n := Step(m, ev);
            var arrives := ev.Arrives? && ev.k < |m.open| && m.open[ev.k].Rereading? && (ev.ok ==> ev.k in m.underWay);
            var same := ev.Submit? && m.offered && ev.original == Some(ev.draft)
                        && IsOk(ValidateDraft(ev.draft, m.entries, ev.original));
            && n.offered == (if arrives || same then n.canChange && n.usable else m.offered)
            && n.usable == (if arrives then ev.ok else m.usable)
  {
    hide ValidateDraft, AfterWrite;
  }

  /** Once refused and redrawn the block offers nothing again: no add, edit or removal
      ever begins. */
  lemma RefusedForever(m: Model, evs: seq<Event>)
    requires !m.canChange && !m.offered
    ensures var n := Run(m, evs);
            && !n.canChange && !n.offered && |m.open| <= |n.open|
            && forall j :: |m.open| <= j < |n.open| ==> n.open[j].Rereading? || n.open[j].Done?
  {
    RefusedRun(m, evs, |m.open|);
  }

  lemma RefusedStep(m: Model, ev: Event, base: nat)
    requires !m.canChange && !m.offered && base <= |m.open|
    requires forall j :: base <= j < |m.open| ==> m.open[j].Rereading? || m.open[j].Done?
    ensures var n := Step(m, ev);
            && !n.canChange && !n.offered && |m.open| <= |n.open|
            && forall j :: base <= j < |n.open| ==> n.open[j].Rereading? || n.open[j].Done?
  {
    hide ValidateDraft, AfterWrite;
  }

  lemma {:induction false} RefusedRun(m: Model, evs: seq<Event>, base: nat)
    requires !m.canChange && !m.offered && base <= |m.open|
    requires forall j :: base <= j < |m.open| ==> m.open[j].Rereading? || m.open[j].Done?
    ensures var n := Run(m, evs);
            && !n.canChange && !n.offered && |m.open| <= |n.open|
            && forall j :: base <= j < |n.open| ==> n.open[j].Rereading? || n.open[j].Done?
    decreases |evs|
  {
    if evs != [] {
      hide Step;
      RefusedStep(m, evs[0], base);
      RefusedRun(Step(m, evs[0]), evs[1..], base);
    }
  }

  // ─── Saving an edit unedited ───

  /** What the edit form's boxes hold when it opens on a pair. */
  function Boxed(p: Ref): Ref {
    Ref(Stripped(p.namespace), Stripped(p.id))
  }

  /** Opening a pair and saving it unedited sends nothing, unless the boxes dropped a
      line break from it and what is left is a pair the form accepts: then a new pair
      is added, and the old one is on its way to be removed. */
  lemma UneditedSendsNothingExactly(m: Model, original: Ref)
    requires m.offered
    ensures var n := Step(m, Submit(Boxed(original), Some(original)));
            && n.server == m.server && |n.open| == |m.open| + 1
            && (n.open[|m.open|].Done? <==>
                  || (OneLine(original.namespace) && OneLine(original.id))
                  || !IsOk(ValidateDraft(Boxed(original), m.entries, Some(original))))
            && (!n.open[|m.open|].Done? ==> n.open[|m.open|] == Posting(Boxed(original), Some(original)))
  {
    hide ValidateDraft, Stripped, OneLine;
    StrippedFixesOneLine(original.namespace);
    StrippedFixesOneLine(original.id);
  }

  // ─── What the list shows ───

  ghost predicate WellRead(m: Model) {
    forall k :: k in m.underWay ==> k < |m.open| && m.open[k].Rereading?
  }

  /** The invocation will read the list, and has not done so yet. */
  predicate StillToRead(m: Model, j: nat) {
    j < |m.open| && (m.open[j].Deleting? || (m.open[j].Rereading? && j !in m.underWay))
  }

  /** The invocation will show what the server holds now, if nothing changes. */
  predicate WillShow(m: Model, j: nat) {
    StillToRead(m, j) || (j < |m.open| && m.open[j].Rereading? && j in m.underWay && m.underWay[j] == m.server)
  }

  /** A usable list shows what the server holds, or an open invocation will make it. */
  ghost predicate InSync(m: Model) {
    m.usable ==> m.entries == m.server || exists j :: WillShow(m, j)
  }

  /** An add that failed in a way the panel does not re-read after, but was applied,
      with nobody else still to read the list or bringing just what it now holds. */
  ghost predicate SilentWrite(m: Model, ev: Event) {
    && m.usable && ev.Settle? && ev.k < |m.open| && m.open[ev.k].Posting?
    && !ev.answer.Ok? && !Refreshes(ev.answer) && !Revokes(ev.answer)
    && ev.applied && m.open[ev.k].next !in m.server && m.entries != m.server + [m.open[ev.k].next]
    && (forall j :: !StillToRead(m, j))
    && (forall j :: j in m.underWay ==> m.underWay[j] != m.server + [m.open[ev.k].next])
  }

  /** A re-read overtaken by somebody else's write and by that write's own re-read. */
  ghost predicate StaleArrival(m: Model, ev: Event) {
    && ev.Arrives? && ev.ok && ev.k < |m.open| && m.open[ev.k].Rereading?
    && ev.k in m.underWay && m.underWay[ev.k] != m.server
    && forall j :: j != ev.k ==> !WillShow(m, j)
  }

  /** A step leaves the shown list behind the server exactly when it is one of these. */
  lemma OutOfSyncExactly(m: Model, ev: Event)
    requires WellRead(m) && InSync(m)
    ensures WellRead(Step(m, ev))
    ensures InSync(Step(m, ev)) <==> !SilentWrite(m, ev) && !StaleArrival(m, ev)
  {
    StepKeepsWellRead(m, ev);
    match ev
    case Settle(_, _, _) =>
      if WillReread(m, ev) {
        SettledLoudly(m, ev);
      } else {
        SettledSilently(m, ev);
      }
    case Arrives(_, _) => ArrivedExactly(m, ev);
    case _ => OthersKeepSync(m, ev);
  }

  lemma StepKeepsWellRead(m: Model, ev: Event)
    requires WellRead(m)
    ensures WellRead(Step(m, ev))
  {
    hide ValidateDraft, AfterWrite;
  }

  /** The answer leaves its invocation with the list still to read. */
  predicate WillReread(m: Model, ev: Event) {
    && ev.Settle? && ev.k < |m.open| && !m.open[ev.k].Rereading? && !m.open[ev.k].Confirming?
    && !AfterAnswer(m.open[ev.k], ev.answer).Done?
  }

  lemma SettledLoudly(m: Model, ev: Event)
    requires WellRead(m) && InSync(m) && WillReread(m, ev)
    ensures InSync(Step(m, ev)) && !SilentWrite(m, ev)
  {
    hide AfterWrite;
    assert ev.k !in m.underWay;
    assert WillShow(Step(m, ev), ev.k);
  }

  /** An event that is no answer takes nothing away from what is about to be shown. */
  lemma OthersKeepShowing(m: Model, ev: Event, j: nat)
    requires WellRead(m) && !ev.Settle? && !ev.Arrives? && WillShow(m, j)
    ensures WillShow(Step(m, ev), j)
  {
    hide ValidateDraft;
  }

  lemma OthersKeepSync(m: Model, ev: Event)
    requires WellRead(m) && InSync(m) && !ev.Settle? && !ev.Arrives?
    ensures InSync(Step(m, ev))
  {
    hide ValidateDraft, WillShow;
    if exists j :: WillShow(m, j) {
      var j :| WillShow(m, j);
      OthersKeepShowing(m, ev, j);
    }
  }

  lemma SettledSilently(m: Model, ev: Event)
    requires WellRead(m) && InSync(m) && ev.Settle? && !WillReread(m, ev)
    ensures InSync(Step(m, ev)) <==> !SilentWrite(m, ev)
  {
    hide Addressable, Detach;
    var n := Step(m, ev);
    forall j ensures StillToRead(n, j) == StillToRead(m, j) {
    }
    if n.server == m.server {
      forall j ensures WillShow(n, j) == WillShow(m, j) {
      }
    } else if exists j :: StillToRead(m, j) {
      var j :| StillToRead(m, j);
      assert WillShow(n, j);
    } else {
      forall j ensures WillShow(n, j) <==> j in m.underWay && m.underWay[j] == n.server {
      }
    }
  }

  lemma ArrivedExactly(m: Model, ev: Event)
    requires WellRead(m) && InSync(m) && ev.Arrives?
    ensures InSync(Step(m, ev)) <==> !StaleArrival(m, ev)
  {
    var n := Step(m, ev);
    if n != m {
      forall j | j != ev.k ensures WillShow(n, j) == WillShow(m, j) {
      }
      assert !WillShow(n, ev.k);
      assert n.usable ==> n.entries == m.underWay[ev.k];
    }
  }

  ghost predicate NothingOverlooked(m: Model, evs: seq<Event>)
    decreases |evs|
  {
    evs == [] || (!SilentWrite(m, evs[0]) && !StaleArrival(m, evs[0]) && NothingOverlooked(Step(m, evs[0]), evs[1..]))
  }

  /** Over any run without either, whatever else fails or overlaps, a usable list is
      the server's once every operation is done. */
  lemma {:induction false} ListStaysInSync(m: Model, evs: seq<Event>)
    requires WellRead(m) && InSync(m) && NothingOverlooked(m, evs)
    ensures var n := Run(m, evs);
            && InSync(n)
            && (n.usable && (forall j :: 0 <= j < |n.open| ==> n.open[j].Done?) ==> n.entries == n.server)
    decreases |evs|
  {
    if evs != [] {
      OutOfSyncExactly(m, evs[0]);
      ListStaysInSync(Step(m, evs[0]), evs[1..]);
    }
  }
}
