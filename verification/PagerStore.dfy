/** The table state store of `createOpsTableState`: sort, filters, and offset or
    cursor paging behind one set of operations. */
module PagerStore {
  import opened Sequences

  const DEFAULT_PAGE_SIZE: nat := 20

  datatype Direction = NoSort | Asc | Desc
  datatype Sort = Sort(columnKey: Option<string>, direction: Direction)
  datatype Mode = OffsetPaging | CursorPaging
  type Cursor = string

  datatype State = State(
    mode: Mode, pageSize: nat, sort: Sort, filters: map<string, string>,
    offset: nat, total: Option<int>,
    cursor: Option<Cursor>, nextCursor: Option<Cursor>, prevStack: seq<Option<Cursor>>, hasNext: bool)

  /** What `setPageInfo` is handed: a finite total or none, and a cursor or none. */
  datatype PageInfo = PageInfo(total: Option<int>, nextCursor: Option<Cursor>)

  datatype Op =
    | ToggleSort(columnKey: string)
    | SetFilter(name: string, value: string)
    | SetFilters(values: map<string, string>)
    | NextPage
    | PrevPage
    | SetPageInfo(info: PageInfo)
    | Reset

  // ─── What each operation does ───

  function NextDirection(d: Direction): Direction {
    match d
    case NoSort => Asc
    case Asc => Desc
    case Desc => NoSort
  }

  function FirstPage(s: State): State {
    s.(offset := 0, cursor := None, nextCursor := None, prevStack := [], hasNext := false)
  }

  function Toggled(sort: Sort, columnKey: string): Sort {
    if sort.columnKey == Some(columnKey) then
      var d := NextDirection(sort.direction);
      Sort(if d == NoSort then None else Some(columnKey), d)
    else Sort(Some(columnKey), Asc)
  }

  predicate CanPrev(s: State) {
    if s.mode == OffsetPaging then s.offset > 0 else s.prevStack != []
  }

  predicate CanNext(s: State) {
    if s.mode == OffsetPaging then s.total.Some? && s.offset + s.pageSize < s.total.value else s.hasNext
  }

  function PageIndex(s: State): nat {
    if s.mode == OffsetPaging then (if s.pageSize == 0 then 0 else s.offset / s.pageSize)
    else |s.prevStack|
  }

  function Turned(s: State, forward: bool): State
    requires if forward then CanNext(s) else CanPrev(s)
  {
    if s.mode == OffsetPaging then
      s.(offset := if forward then s.offset + s.pageSize
                   else if s.offset >= s.pageSize then s.offset - s.pageSize else 0)
    else if forward then
      s.(prevStack := s.prevStack + [s.cursor], cursor := s.nextCursor, nextCursor := None, hasNext := false)
    else
      var n := |s.prevStack| - 1;
      s.(cursor := s.prevStack[n], prevStack := s.prevStack[..n], nextCursor := None, hasNext := false)
  }

  function Recorded(s: State, info: PageInfo): State {
    if s.mode == OffsetPaging then
      if info.total.Some? then s.(total := info.total) else s
    else s.(nextCursor := info.nextCursor, hasNext := info.nextCursor.Some?)
  }

  /** The non-empty values under the given names. */
  function NonEmptyOf(values: map<string, string>, names: set<string>): map<string, string> {
    map k | k in names && k in values && values[k] != "" :: values[k]
  }

  lemma NonEmptyOfNone(values: map<string, string>)
    ensures NonEmptyOf(values, {}) == map[]
  {
  }

  lemma NonEmptyStep(values: map<string, string>, names: set<string>, k: string)
    requires k in values && k !in names
    ensures NonEmptyOf(values, names + {k})
         == if values[k] != "" then NonEmptyOf(values, names)[k := values[k]] else NonEmptyOf(values, names)
  {
  }

  function Apply(s: State, op: Op): State {
    match op
    case ToggleSort(key) => FirstPage(s.(sort := Toggled(s.sort, key)))
    case SetFilter(name, value) =>
      FirstPage(s.(filters := if value == "" then s.filters - {name} else s.filters[name := value]))
    case SetFilters(values) =>
      FirstPage(s.(filters := NonEmptyOf(values, values.Keys)))
    case NextPage => if CanNext(s) then Turned(s, true) else s
    case PrevPage => if CanPrev(s) then Turned(s, false) else s
    case SetPageInfo(info) => Recorded(s, info)
    case Reset => FirstPage(s)
  }

  /** Whether the operation notifies the subscribers. */
  predicate Emits(s: State, op: Op) {
    match op
    case NextPage => CanNext(s)
    case PrevPage => CanPrev(s)
    case _ => true
  }

  function ApplyAll(s: State, ops: seq<Op>): State
    decreases |ops|
  {
    if ops == [] then s else ApplyAll(Apply(s, ops[0]), ops[1..])
  }

  // ─── The store itself ───

  /** `Math.floor` of a positive configured size, the default otherwise. */
  function ResolvePageSize(configured: Option<real>): nat {
    if configured.Some? && configured.value > 0.0 then configured.value.Floor else DEFAULT_PAGE_SIZE
  }

  class OpsTableState {
    const mode: Mode
    const pageSize: nat
    var sort: Sort
    var filters: map<string, string>
    var offset: nat
    var total: Option<int>
    var cursor: Option<Cursor>
    var nextCursor: Option<Cursor>
    var prevStack: seq<Option<Cursor>>
    var hasNext: bool

    function GetState(): State
      reads this
    {
      State(mode, pageSize, sort, filters, offset, total, cursor, nextCursor, prevStack, hasNext)
    }

    constructor (mode: Mode, configuredSize: Option<real>, initialSort: Sort, initialFilters: map<string, string>)
      ensures GetState() == State(mode, ResolvePageSize(configuredSize), initialSort, initialFilters,
                                  0, None, None, None, [], false)
    {
      this.mode, this.pageSize := mode, ResolvePageSize(configuredSize);
      this.sort, this.filters := initialSort, initialFilters;
      this.offset, this.total := 0, None;
      this.cursor, this.nextCursor, this.prevStack, this.hasNext := None, None, [], false;
    }

    method ResetPaging()
      modifies this
      ensures GetState() == FirstPage(old(GetState()))
    {
      offset := 0;
      cursor := None;
      nextCursor := None;
      prevStack := [];
      hasNext := false;
    }

    method ToggleSortColumn(columnKey: string)
      modifies this
      ensures GetState() == Apply(old(GetState()), ToggleSort(columnKey))
    {
      if sort.columnKey == Some(columnKey) {
        var dir := NextDirection(sort.direction);
        sort := Sort(if dir == NoSort then None else Some(columnKey), dir);
      } else {
        sort := Sort(Some(columnKey), Asc);
      }
      ResetPaging();
    }

    method SetOneFilter(name: string, value: string)
      modifies this
      ensures GetState() == Apply(old(GetState()), SetFilter(name, value))
    {
      if value == "" {
        filters := filters - {name};
      } else {
        filters := filters[name := value];
      }
      ResetPaging();
    }

    method SetAllFilters(values: map<string, string>)
      modifies this
      ensures GetState() == Apply(old(GetState()), SetFilters(values))
    {
      hide NonEmptyOf;
      filters := map[];
      NonEmptyOfNone(values);
      var keys := values.Keys;
      assert values.Keys - keys == {} && values.Keys - {} == values.Keys;
      while keys != {}
        invariant keys <= values.Keys
        invariant filters == NonEmptyOf(values, values.Keys - keys)
        invariant GetState() == old(GetState()).(filters := filters)
        decreases |keys|
      {
        var k :| k in keys;
        NonEmptyStep(values, values.Keys - keys, k);
        if values[k] != "" {
          filters := filters[k := values[k]];
        }
        assert values.Keys - keys + {k} == values.Keys - (keys - {k});
        keys := keys - {k};
      }
      ResetPaging();
    }

    method SetInfo(info: PageInfo)
      modifies this
      ensures GetState() == Apply(old(GetState()), SetPageInfo(info))
    {
      if mode == OffsetPaging {
        if info.total.Some? {
          total := info.total;
        }
      } else {
        nextCursor := info.nextCursor;
        hasNext := nextCursor.Some?;
      }
    }

    method Next() returns (moved: bool)
      modifies this
      ensures moved == CanNext(old(GetState()))
      ensures GetState() == Apply(old(GetState()), NextPage)
    {
      if !CanNext(GetState()) { return false; }
      if mode == OffsetPaging {
        offset := offset + pageSize;
      } else {
        prevStack := prevStack + [cursor];
        cursor := nextCursor;
        nextCursor := None;
        hasNext := false;
      }
      return true;
    }

    method Prev() returns (moved: bool)
      modifies this
      ensures moved == CanPrev(old(GetState()))
      ensures GetState() == Apply(old(GetState()), PrevPage)
    {
      if !CanPrev(GetState()) { return false; }
      if mode == OffsetPaging {
        offset := if offset >= pageSize then offset - pageSize else 0;
      } else {
        cursor := prevStack[|prevStack| - 1];
        prevStack := prevStack[..|prevStack| - 1];
        nextCursor := None;
        hasNext := false;
      }
      return true;
    }

    /** Run one operation; the answer is whether subscribers are notified. */
    method Do(op: Op) returns (emitted: bool)
      modifies this
      ensures GetState() == Apply(old(GetState()), op)
      ensures emitted == Emits(old(GetState()), op)
    {
      emitted := true;
      match op {
        case ToggleSort(key) => ToggleSortColumn(key);
        case SetFilter(name, value) => SetOneFilter(name, value);
        case SetFilters(values) => SetAllFilters(values);
        case NextPage => emitted := Next();
        case PrevPage => emitted := Prev();
        case SetPageInfo(info) => SetInfo(info);
        case Reset => ResetPaging();
      }
    }
  }

  // ─── Sort and filters ───

  /** Three clicks on a column come back to where the sort was, or to no sort if it
      was on another column; the second click reverses the first. */
  lemma TogglesCycle(s: State, key: string)
    requires s.sort.columnKey.None? <==> s.sort.direction == NoSort
    ensures var t := ToggleSort(key);
            var a := Apply(s, t);
            var b := Apply(a, t);
            var c := Apply(b, t);
            && c.sort == (if s.sort.columnKey == Some(key) then s.sort else Sort(None, NoSort))
            && (s.sort.columnKey != Some(key) ==> a.sort == Sort(Some(key), Asc) && b.sort == Sort(Some(key), Desc))
            && c == FirstPage(s).(sort := c.sort)
  {
  }

  /** Setting a filter and clearing it again, or setting all filters to what they
      are, only goes back to the first page. */
  lemma FiltersUndo(s: State, name: string, value: string)
    requires forall k :: k in s.filters ==> s.filters[k] != ""
    ensures name !in s.filters ==> Apply(Apply(s, SetFilter(name, value)), SetFilter(name, "")) == FirstPage(s)
    ensures name in s.filters ==>
              Apply(Apply(s, SetFilter(name, value)), SetFilter(name, s.filters[name])) == FirstPage(s)
    ensures Apply(s, SetFilters(s.filters)) == FirstPage(s)
  {
    assert (s.filters - {name})[name := value] - {name} == s.filters - {name};
    assert NonEmptyOf(s.filters, s.filters.Keys) == s.filters;
    if name in s.filters {
      assert (s.filters - {name})[name := s.filters[name]] == s.filters;
      assert s.filters[name := value][name := s.filters[name]] == s.filters;
    }
  }

  /** Any change of sort or filters, and a reset, shows the first page, with nothing to
      go back to and nothing known ahead; the last total stays until the next answer. */
  lemma ChangesShowTheFirstPage(s: State, op: Op)
    requires op.ToggleSort? || op.SetFilter? || op.SetFilters? || op.Reset?
    ensures var n := Apply(s, op);
            && n.offset == 0 && n.cursor == None && n.prevStack == [] && n.nextCursor == None && !n.hasNext
            && n.total == s.total && n.mode == s.mode && n.pageSize == s.pageSize
            && !CanPrev(n) && PageIndex(n) == 0
            && (op.Reset? ==> n.sort == s.sort && n.filters == s.filters)
            && (op.ToggleSort? ==> n.filters == s.filters)
            && (op.SetFilter? || op.SetFilters? ==> n.sort == s.sort)
  {
  }

  function Get(filters: map<string, string>, name: string): string {
    if name in filters then filters[name] else ""
  }

  ghost predicate NoBlankFilter(filters: map<string, string>) {
    forall k :: k in filters ==> filters[k] != ""
  }

  /** A filter reads as what it was set to, every other as before, and no filter is
      ever stored blank. */
  lemma FiltersReadBack(s: State, name: string, value: string, values: map<string, string>)
    ensures var n := Apply(s, SetFilter(name, value));
            && Get(n.filters, name) == value
            && (forall k :: k != name ==> Get(n.filters, k) == Get(s.filters, k))
            && (NoBlankFilter(s.filters) ==> NoBlankFilter(n.filters))
    ensures var n := Apply(s, SetFilters(values));
            && (forall k :: Get(n.filters, k) == Get(values, k)) && NoBlankFilter(n.filters)
  {
  }

  /** What an answer's page facts are for: with a total there is a next page exactly
      while rows remain behind this one; with a cursor, exactly when there is one, and
      Next goes to it. A page turn changes neither sort nor filters. */
  lemma PageInfoDecidesNext(s: State, info: PageInfo)
    ensures var n := Apply(s, SetPageInfo(info));
            && (s.mode == OffsetPaging && info.total.Some? ==>
                  n.total == info.total && (CanNext(n) <==> n.offset + n.pageSize < info.total.value))
            && (s.mode == OffsetPaging && info.total.None? ==> n == s)
            && (s.mode == CursorPaging ==>
                  && (CanNext(n) <==> info.nextCursor.Some?)
                  && (CanNext(n) ==> Apply(n, NextPage).cursor == info.nextCursor))
            && n.sort == s.sort && n.filters == s.filters && n.offset == s.offset && n.cursor == s.cursor
    ensures forall op :: op in {NextPage, PrevPage} ==>
              Apply(s, op).sort == s.sort && Apply(s, op).filters == s.filters && Apply(s, op).total == s.total
  {
  }

  /** What a page turn does: by offset it goes one page on, or back as far as the first;
      by cursor the page after it is unknown until its own answer comes, and the way back
      grows or shrinks by the page left or returned to. */
  lemma TurnsExactly(s: State)
    ensures s.mode == OffsetPaging && CanNext(s) ==> Apply(s, NextPage) == s.(offset := s.offset + s.pageSize)
    ensures s.mode == OffsetPaging && CanPrev(s) ==>
              Apply(s, PrevPage).offset == (if s.offset < s.pageSize then 0 else s.offset - s.pageSize)
    ensures s.mode == CursorPaging && CanNext(s) ==>
              var n := Apply(s, NextPage);
              n.nextCursor == None && !CanNext(n) && n.cursor == s.nextCursor && n.prevStack == s.prevStack + [s.cursor]
    ensures s.mode == CursorPaging && CanPrev(s) ==>
              var n := Apply(s, PrevPage);
              n.nextCursor == None && !CanNext(n) && n.prevStack + [n.cursor] == s.prevStack
    ensures !CanNext(s) ==> Apply(s, NextPage) == s
    ensures !CanPrev(s) ==> Apply(s, PrevPage) == s
  {
  }

  // ─── Page size ───

  /** The resolved size is a usable page size unless the configured one lies
      strictly between 0 and 1, where flooring makes it zero. */
  lemma PageSizeUsable(configured: Option<real>)
    ensures configured.None? || configured.value <= 0.0 ==> ResolvePageSize(configured) == 20
    ensures configured.Some? && configured.value > 0.0 ==>
              ResolvePageSize(configured) as real <= configured.value < ResolvePageSize(configured) as real + 1.0
    ensures ResolvePageSize(configured) >= 1
       <==> !(configured.Some? && 0.0 < configured.value < 1.0)
  {
    if configured.Some? && configured.value > 0.0 {
      assert configured.value >= 1.0 <==> configured.value.Floor >= 1;
    }
  }

  /** With a page size of zero Next reports success and stays where it is. */
  lemma ZeroPageSizeSticks(s: State)
    requires s.mode == OffsetPaging && s.pageSize == 0 && s.total.Some? && s.offset < s.total.value
    ensures CanNext(s) && Apply(s, NextPage) == s
  {
  }

  // ─── Offset paging ───

  predicate IsMultiple(offset: nat, size: nat)
    requires size >= 1
  {
    offset % size == 0
  }

  predicate OnPageBoundary(s: State) {
    s.pageSize >= 1 && IsMultiple(s.offset, s.pageSize)
  }

  lemma OffsetStep(s: State, op: Op)
    requires OnPageBoundary(s)
    ensures OnPageBoundary(Apply(s, op))
    ensures Apply(s, op).pageSize == s.pageSize && Apply(s, op).mode == s.mode
  {
    hide IsMultiple;
    BoundarySteps(s.offset, s.pageSize);
  }

  /** One page forward and one page back from a page boundary are boundaries. */
  lemma BoundarySteps(offset: nat, size: nat)
    requires size >= 1 && IsMultiple(offset, size)
    ensures IsMultiple(0, size) && IsMultiple(offset + size, size)
    ensures offset >= size ==> IsMultiple(offset - size, size)
  {
    ModPlus(offset, size);
    if offset >= size {
      ModPlus(offset - size, size);
    }
  }

  lemma ModPlus(a: nat, n: nat)
    requires n >= 1
    ensures (a + n) % n == a % n && (a + n) / n == a / n + 1
  {
    var q, r := a / n, a % n;
    assert a + n == (q + 1) * n + r;
    UniqueQuotient(a + n, n, q + 1, r);
  }

  lemma UniqueQuotient(a: nat, n: nat, q: nat, r: nat)
    requires n >= 1 && r < n && a == q * n + r
    ensures a / n == q && a % n == r
  {
    var d := a / n - q;
    assert a == (a / n) * n + a % n;
    assert d * n == r - a % n;
    assert d >= 1 ==> d * n >= n;
    assert d <= -1 ==> d * n + n <= 0;
  }

  lemma MultipleAtLeast(k: nat, n: nat)
    requires k >= 1
    ensures k * n >= n
  {
  }

  /** Over every run the offset stays a multiple of the page size. */
  lemma {:induction false} OffsetOverRuns(s: State, ops: seq<Op>)
    requires OnPageBoundary(s)
    ensures OnPageBoundary(ApplyAll(s, ops))
    ensures ApplyAll(s, ops).pageSize == s.pageSize
    decreases |ops|
  {
    if ops != [] {
      OffsetStep(s, ops[0]);
      OffsetOverRuns(Apply(s, ops[0]), ops[1..]);
    }
  }

  /** On a page boundary Previous undoes Next, and Next undoes Previous exactly
      when there was a page to go back to and one to come forward to. */
  lemma OffsetTurnsUndo(s: State)
    requires s.mode == OffsetPaging && OnPageBoundary(s)
    ensures CanNext(s) ==> Apply(Apply(s, NextPage), PrevPage) == s
    ensures CanPrev(s) ==>
              (Apply(Apply(s, PrevPage), NextPage) == s <==> s.total.Some? && s.offset < s.total.value)
    ensures CanNext(s) ==> PageIndex(Apply(s, NextPage)) == PageIndex(s) + 1
  {
    var k := s.offset / s.pageSize;
    assert s.offset == k * s.pageSize;
    ModPlus(s.offset, s.pageSize);
    if k >= 1 {
      MultipleAtLeast(k, s.pageSize);
    }
  }

  /** The window `limit`/`offset` names over a list. */
  function Window<T>(list: seq<T>, offset: nat, size: nat): seq<T> {
    var lo := if offset <= |list| then offset else |list|;
    var hi := if offset + size <= |list| then offset + size else |list|;
    list[lo..hi]
  }

  /** The pages seen by pressing Next from `s` until it is refused, over a fixed list. */
  function Walk<T>(s: State, list: seq<T>): seq<seq<T>>
    requires s.mode == OffsetPaging && s.pageSize >= 1 && s.total == Some(|list|)
    decreases |list| - s.offset
  {
    [Window(list, s.offset, s.pageSize)]
    + if CanNext(s) then Walk(Apply(s, NextPage), list) else []
  }

  function Flatten<T>(pages: seq<seq<T>>): seq<T> {
    if pages == [] then [] else pages[0] + Flatten(pages[1..])
  }

  /** Walking Next from any page visits what is left of the list, every row once
      and in order; from the first page that is the whole list. */
  lemma {:induction false} WalkVisitsAll<T>(s: State, list: seq<T>)
    requires s.mode == OffsetPaging && s.pageSize >= 1 && s.total == Some(|list|)
    requires s.offset <= |list|
    ensures Flatten(Walk(s, list)) == list[s.offset..]
    decreases |list| - s.offset
  {
    var page := Window(list, s.offset, s.pageSize);
    if CanNext(s) {
      var n := Apply(s, NextPage);
      WalkVisitsAll(n, list);
      assert Walk(s, list) == [page] + Walk(n, list);
      assert ([page] + Walk(n, list))[1..] == Walk(n, list);
      assert page + list[n.offset..] == list[s.offset..];
    } else {
      assert Walk(s, list) == [page];
      assert [page][1..] == [];
      assert page + [] == page;
    }
  }

  /** The search tier's 1-based page, `floor(offset / limit) + 1`. */
  function SearchPage(offset: nat, limit: nat): nat
    requires limit >= 1
  {
    offset / limit + 1
  }

  /** Asking search for that page gives the same rows as asking the list tier for
      the offset, for every list, exactly on page boundaries. */
  lemma SearchPageIsWindow(offset: nat, limit: nat)
    requires limit >= 1
    ensures (forall list: seq<nat> ::
               Window(list, (SearchPage(offset, limit) - 1) * limit, limit) == Window(list, offset, limit))
       <==> offset % limit == 0
  {
    var start := (SearchPage(offset, limit) - 1) * limit;
    assert start == offset - offset % limit;
    if offset % limit != 0 {
      var list: seq<nat> := seq(offset + limit, i requires 0 <= i => i);
      assert Window(list, start, limit)[0] == start;
      assert Window(list, offset, limit)[0] == offset;
      assert Window(list, (SearchPage(offset, limit) - 1) * limit, limit) != Window(list, offset, limit);
    }
  }

  // ─── Cursor paging against a deterministic server ───

  /** The request a table makes apart from its page: sort and filters. */
  datatype Query = Query(sort: Sort, filters: map<string, string>)

  /** The server's answer for one page: the cursor of the page after it, if any. */
  type Successor = (Query, Option<Cursor>) -> Option<Cursor>

  function QueryOf(s: State): Query {
    Query(s.sort, s.filters)
  }

  /** The pages behind the current one, and the current one. */
  function Trail(s: State): seq<Option<Cursor>> {
    s.prevStack + [s.cursor]
  }

  /** The trail starts at the first page and follows the server's successors; a
      recorded next cursor is the successor of the current page. */
  ghost predicate ChainOk(s: State, next: Successor) {
    && Trail(s)[0] == None
    && (forall i :: 0 <= i < |s.prevStack| ==>
          next(QueryOf(s), Trail(s)[i]).Some? && Trail(s)[i + 1] == next(QueryOf(s), Trail(s)[i]))
    && (s.hasNext ==> s.nextCursor.Some? && s.nextCursor == next(QueryOf(s), s.cursor))
  }

  /** The recorded answer is the server's for the page the store is on. */
  predicate Honest(s: State, op: Op, next: Successor) {
    op.SetPageInfo? ==> op.info.nextCursor == next(QueryOf(s), s.cursor)
  }

  lemma ChainStep(s: State, op: Op, next: Successor)
    requires s.mode == CursorPaging && ChainOk(s, next) && Honest(s, op, next)
    ensures Apply(s, op).mode == CursorPaging && ChainOk(Apply(s, op), next)
  {
    if op.NextPage? && CanNext(s) {
      ChainForward(s, next);
    } else if op.PrevPage? && CanPrev(s) {
      ChainBack(s, next);
    }
  }

  lemma ChainForward(s: State, next: Successor)
    requires s.mode == CursorPaging && ChainOk(s, next) && s.hasNext
    ensures ChainOk(Turned(s, true), next)
  {
    var n := Turned(s, true);
    assert Trail(n) == Trail(s) + [s.nextCursor];
    forall i | 0 <= i < |n.prevStack|
      ensures next(QueryOf(n), Trail(n)[i]).Some? && Trail(n)[i + 1] == next(QueryOf(n), Trail(n)[i])
    {
      assert Trail(n)[i] == Trail(s)[i];
    }
  }

  lemma ChainBack(s: State, next: Successor)
    requires s.mode == CursorPaging && ChainOk(s, next) && s.prevStack != []
    ensures ChainOk(Turned(s, false), next)
  {
    assert Trail(Turned(s, false)) == Trail(s)[..|s.prevStack|];
  }

  ghost predicate HonestRun(s: State, ops: seq<Op>, next: Successor)
    decreases |ops|
  {
    ops == [] || (Honest(s, ops[0], next) && HonestRun(Apply(s, ops[0]), ops[1..], next))
  }

  /** In every run whose recorded answers belong to the current page, the trail is
      the server's own chain from the first page. */
  lemma {:induction false} ChainOverRuns(s: State, ops: seq<Op>, next: Successor)
    requires s.mode == CursorPaging && ChainOk(s, next) && HonestRun(s, ops, next)
    ensures ChainOk(ApplyAll(s, ops), next) && ApplyAll(s, ops).mode == CursorPaging
    decreases |ops|
  {
    if ops != [] {
      ChainStep(s, ops[0], next);
      ChainOverRuns(Apply(s, ops[0]), ops[1..], next);
    }
  }

  /** The `n`-th page of a query. */
  function PageAt(q: Query, next: Successor, n: nat): Option<Cursor> {
    if n == 0 then None else next(q, PageAt(q, next, n - 1))
  }

  /** So the current cursor is the page the index says it is. */
  lemma {:induction false} ChainIsIndex(s: State, next: Successor, i: nat)
    requires ChainOk(s, next) && i <= |s.prevStack|
    ensures Trail(s)[i] == PageAt(QueryOf(s), next, i)
  {
    if i > 0 {
      ChainIsIndex(s, next, i - 1);
    }
  }

  lemma CursorIsPageIndex(s: State, ops: seq<Op>, next: Successor)
    requires s.mode == CursorPaging && ChainOk(s, next) && HonestRun(s, ops, next)
    ensures var n := ApplyAll(s, ops);
            n.cursor == PageAt(QueryOf(n), next, PageIndex(n))
  {
    ChainOverRuns(s, ops, next);
    var n := ApplyAll(s, ops);
    ChainIsIndex(n, next, |n.prevStack|);
  }

  /** Next, any answer, Previous: back on the same page with the same way back. */
  lemma CursorTurnsUndo(s: State, info: PageInfo)
    requires s.mode == CursorPaging && CanNext(s)
    ensures var back := ApplyAll(s, [NextPage, SetPageInfo(info), PrevPage]);
            back == s.(nextCursor := None, hasNext := false) && PageIndex(back) == PageIndex(s)
  {
    var a := Apply(s, NextPage);
    var b := Apply(a, SetPageInfo(info));
    var c := Apply(b, PrevPage);
    var ops := [NextPage, SetPageInfo(info), PrevPage];
    assert ops[1..] == [SetPageInfo(info), PrevPage] && ops[1..][1..] == [PrevPage] && ops[1..][1..][1..] == [];
    assert ApplyAll(a, ops[1..]) == ApplyAll(b, ops[1..][1..]) == ApplyAll(c, ops[1..][1..][1..]);
    assert (s.prevStack + [s.cursor])[..|s.prevStack|] == s.prevStack;
  }
}
