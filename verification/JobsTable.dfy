/** The jobs table: a bounded working set that is filtered, sorted and paged on
    the client, and re-rendered whenever the state store emits. */
module JobsTable {
  import opened Sequences
  import opened Ordering
  import opened Text
  import opened PagerStore

  const JOBS_PAGE_SIZE: nat := 20

  datatype Job = Job(id: string, assetId: string, assetName: Option<string>, status: string,
                     createdAt: string, updatedAt: string)

  /** The browser's `Date.parse` (None for NaN) and `toLowerCase`. */
  datatype Env = Env(parseDate: string -> Option<int>, lower: string -> string)

  // ─── Filtering ───

  datatype JobFilter = JobFilter(status: seq<string>, from: Option<string>, to: Option<string>, q: string)

  predicate IsDigit(c: char) {
    '0' <= c <= '9'
  }

  /** `YYYY-MM-DD`, nothing else. */
  predicate IsBareDate(s: string) {
    |s| == 10 && s[4] == '-' && s[7] == '-'
    && forall i :: 0 <= i < 10 && i != 4 && i != 7 ==> IsDigit(s[i])
  }

  predicate Includes(haystack: string, needle: string) {
    exists i :: 0 <= i <= |haystack| && needle <= haystack[i..]
  }

  predicate IncludesCI(env: Env, haystack: string, needle: string) {
    needle == "" || Includes(env.lower(haystack), env.lower(needle))
  }

  function Bound(env: Env, text: Option<string>, upper: bool): Option<int> {
    if text.None? || text.value == "" then None
    else if upper && IsBareDate(Trim(text.value)) then env.parseDate(Trim(text.value) + "T23:59:59.999Z")
    else env.parseDate(text.value)
  }

  predicate Keeps(env: Env, f: JobFilter, j: Job) {
    var statuses := Sequences.Filter((s: string) => s != "", f.status);
    var from, to := Bound(env, f.from, false), Bound(env, f.to, true);
    var t := env.parseDate(j.createdAt);
    var q := Trim(f.q);
    && (statuses == [] || j.status in statuses)
    && (from.Some? ==> t.Some? && t.value >= from.value)
    && (to.Some? ==> t.Some? && t.value <= to.value)
    && (q == "" || IncludesCI(env, j.id, q) || IncludesCI(env, j.assetId, q)
        || IncludesCI(env, if j.assetName.Some? then j.assetName.value else "", q))
  }

  function FilterJobs(env: Env, jobs: seq<Job>, f: JobFilter): seq<Job> {
    Sequences.Filter(j => Keeps(env, f, j), jobs)
  }

  const EVERY_JOB: JobFilter := JobFilter([], None, None, "")

  /** One criterion of a filter, the others left open. */
  function OnlyStatus(f: JobFilter): JobFilter {
    EVERY_JOB.(status := f.status)
  }

  function OnlyFrom(f: JobFilter): JobFilter {
    EVERY_JOB.(from := f.from)
  }

  function OnlyTo(f: JobFilter): JobFilter {
    EVERY_JOB.(to := f.to)
  }

  function OnlySearch(f: JobFilter): JobFilter {
    EVERY_JOB.(q := f.q)
  }

  lemma {:induction false} FilterSplits<T>(p: T -> bool, a: T -> bool, b: T -> bool, s: seq<T>)
    requires forall x :: x in s ==> p(x) == (a(x) && b(x))
    ensures Sequences.Filter(p, s) == Sequences.Filter(b, Sequences.Filter(a, s))
  {
    if s != [] {
      FilterSplits(p, a, b, s[1..]);
      FilterCons(b, s[0], Sequences.Filter(a, s[1..]));
      assert [] + Sequences.Filter(a, s[1..]) == Sequences.Filter(a, s[1..]);
    }
  }

  lemma NothingAsked(env: Env)
    ensures Trim("") == ""
    ensures Bound(env, None, false) == None && Bound(env, None, true) == None
    ensures Sequences.Filter((s: string) => s != "", []) == []
  {
  }

  lemma KeepsSplits(env: Env, f: JobFilter, j: Job)
    ensures Keeps(env, f, j) == (Keeps(env, f.(q := ""), j) && Keeps(env, OnlySearch(f), j))
    ensures Keeps(env, f.(q := ""), j) == (Keeps(env, f.(q := "", to := None), j) && Keeps(env, OnlyTo(f), j))
    ensures Keeps(env, f.(q := "", to := None), j) == (Keeps(env, OnlyStatus(f), j) && Keeps(env, OnlyFrom(f), j))
    ensures Keeps(env, EVERY_JOB, j)
  {
    hide IncludesCI, Bound, Trim, Sequences.Filter;
    NothingAsked(env);
  }

  /** The criteria are independent: filtering by all of them is filtering by each
      in turn, and a filter that asks nothing keeps every job. */
  lemma CriteriaAreIndependent(env: Env, jobs: seq<Job>, f: JobFilter)
    ensures FilterJobs(env, jobs, f)
         == FilterJobs(env, FilterJobs(env, FilterJobs(env, FilterJobs(env, jobs, OnlyStatus(f)), OnlyFrom(f)),
                                       OnlyTo(f)), OnlySearch(f))
    ensures FilterJobs(env, jobs, EVERY_JOB) == jobs
  {
    hide Keeps, Sequences.Filter;
    var g, h := f.(q := ""), f.(q := "", to := None);
    forall j ensures Keeps(env, f, j) == (Keeps(env, g, j) && Keeps(env, OnlySearch(f), j))
             ensures Keeps(env, g, j) == (Keeps(env, h, j) && Keeps(env, OnlyTo(f), j))
             ensures Keeps(env, h, j) == (Keeps(env, OnlyStatus(f), j) && Keeps(env, OnlyFrom(f), j))
             ensures Keeps(env, EVERY_JOB, j)
    {
      KeepsSplits(env, f, j);
    }
    FilterSplits(j => Keeps(env, f, j), j => Keeps(env, g, j), j => Keeps(env, OnlySearch(f), j), jobs);
    FilterSplits(j => Keeps(env, g, j), j => Keeps(env, h, j), j => Keeps(env, OnlyTo(f), j), jobs);
    FilterSplits(j => Keeps(env, h, j), j => Keeps(env, OnlyStatus(f), j), j => Keeps(env, OnlyFrom(f), j), jobs);
    FilterAll(j => Keeps(env, EVERY_JOB, j), jobs);
  }

  /** The text occurs in the other. */
  ghost predicate Occurs(needle: string, haystack: string) {
    exists pre, post :: haystack == pre + needle + post
  }

  lemma IncludesOccurrences(haystack: string, needle: string)
    ensures Includes(haystack, needle) <==> Occurs(needle, haystack)
  {
    if Includes(haystack, needle) {
      var i :| 0 <= i <= |haystack| && needle <= haystack[i..];
      assert haystack == haystack[..i] + needle + haystack[i + |needle|..];
    }
    if Occurs(needle, haystack) {
      var pre, post :| haystack == pre + needle + post;
      assert haystack[|pre|..] == needle + post;
    }
  }

  /** A search keeps exactly the jobs in whose id, asset id or asset name the trimmed
      text occurs, both in lower case; so it ignores the case it was typed in. */
  lemma SearchFindsExactly(env: Env, f: JobFilter, q: string, j: Job)
    requires Trim(q) != ""
    ensures Keeps(env, OnlySearch(f.(q := q)), j)
       <==> exists field :: field in [j.id, j.assetId, if j.assetName.Some? then j.assetName.value else ""]
                            && Occurs(env.lower(Trim(q)), env.lower(field))
    ensures Trim(f.q) != "" && env.lower(Trim(q)) == env.lower(Trim(f.q)) ==>
              Keeps(env, f.(q := q), j) == Keeps(env, f, j)
  {
    hide Bound, Trim, Sequences.Filter, Includes, Occurs;
    NothingAsked(env);
    var name := if j.assetName.Some? then j.assetName.value else "";
    var fields := [j.id, j.assetId, name];
    IncludesOccurrences(env.lower(j.id), env.lower(Trim(q)));
    IncludesOccurrences(env.lower(j.assetId), env.lower(Trim(q)));
    IncludesOccurrences(env.lower(name), env.lower(Trim(q)));
    assert fields[0] in fields && fields[1] in fields && fields[2] in fields;
  }

  /** A status filter keeps exactly the jobs in one of its non-empty statuses, and
      every job when it names none. */
  lemma StatusFilterExactly(env: Env, jobs: seq<Job>, statuses: seq<string>, j: Job)
    ensures j in FilterJobs(env, jobs, EVERY_JOB.(status := statuses)) <==>
            && j in jobs
            && ((j.status in statuses && j.status != "") || forall s :: s in statuses ==> s == "")
  {
    hide Bound, IncludesCI, Trim;
    NothingAsked(env);
    var named := Sequences.Filter((s: string) => s != "", statuses);
    assert named == [] <==> forall s :: s in statuses ==> s == "" by {
      if forall s :: s in statuses ==> s == "" {
        FilterNone((s: string) => s != "", statuses);
      } else {
        var s :| s in statuses && s != "";
        assert s in named;
      }
    }
    FilterMembers(jobs, j, x => Keeps(env, EVERY_JOB.(status := statuses), x));
    StatusMembers(statuses, j.status);
  }

  lemma StatusMembers(statuses: seq<string>, status: string)
    ensures status in Sequences.Filter((s: string) => s != "", statuses) <==> status in statuses && status != ""
  {
  }

  lemma FilterMembers<T>(s: seq<T>, x: T, keep: T -> bool)
    ensures x in Sequences.Filter(keep, s) <==> x in s && keep(x)
  {
  }

  /** A start date keeps exactly the jobs created at or after it, an end that is no bare
      date exactly those created at or before it; one the parser rejects bounds nothing,
      and one it accepts drops the jobs whose own date it rejects. */
  lemma BoundsExactly(env: Env, text: string, j: Job)
    requires text != ""
    ensures Keeps(env, EVERY_JOB.(from := Some(text)), j) <==>
            || env.parseDate(text).None?
            || (env.parseDate(j.createdAt).Some? && env.parseDate(text).value <= env.parseDate(j.createdAt).value)
    ensures !IsBareDate(Trim(text)) ==>
              (Keeps(env, EVERY_JOB.(to := Some(text)), j) <==>
                 || env.parseDate(text).None?
                 || (env.parseDate(j.createdAt).Some?
                     && env.parseDate(j.createdAt).value <= env.parseDate(text).value))
  {
    hide IncludesCI, IsBareDate, Sequences.Filter;
    NothingAsked(env);
  }

  // ─── The end date ───

  const LAST_INSTANT: string := "T23:59:59.999Z"

  function TwoDigits(s: string, i: nat): int
    requires i + 1 < |s|
  {
    10 * (s[i] as int - '0' as int) + (s[i + 1] as int - '0' as int)
  }

  function DaysIn(year: int, month: int): int {
    if month in {4, 6, 9, 11} then 30
    else if month != 2 then 31
    else if year % 4 == 0 && (year % 100 != 0 || year % 400 == 0) then 29 else 28
  }

  /** A `YYYY-MM-DD` that the calendar has. */
  predicate IsCalendarDate(s: string) {
    IsBareDate(s) &&
    var year, month, day := 100 * TwoDigits(s, 0) + TwoDigits(s, 2), TwoDigits(s, 5), TwoDigits(s, 8);
    1 <= month <= 12 && 1 <= day <= DaysIn(year, month)
  }

  /** `THH:MM:SS.mmmZ`, a time that the clock has. */
  predicate IsTimeOfDay(t: string) {
    && |t| == 14 && t[0] == 'T' && t[3] == ':' && t[6] == ':' && t[9] == '.' && t[13] == 'Z'
    && (forall i :: 0 <= i < 14 && i !in {0, 3, 6, 9, 13} ==> IsDigit(t[i]))
    && TwoDigits(t, 1) <= 23 && TwoDigits(t, 4) <= 59 && TwoDigits(t, 7) <= 59
  }

  /** A timestamp as the API writes it. */
  predicate IsInstant(s: string) {
    |s| == 24 && IsCalendarDate(s[..10]) && IsTimeOfDay(s[10..])
  }

  /** On such timestamps the parser keeps the order of the texts. */
  ghost predicate ParsesInOrder(env: Env) {
    && (forall s :: IsInstant(s) ==> env.parseDate(s).Some?)
    && (forall s, t :: IsInstant(s) && IsInstant(t) ==>
          (env.parseDate(s).value <= env.parseDate(t).value <==> LexLe(s, t)))
  }

  /** A bare end date keeps exactly the jobs created on that day or before: the whole
      of its day, and nothing after it. A date the parser rejects bounds nothing. */
  lemma EndDateIsInclusive(env: Env, day: string, j: Job)
    requires ParsesInOrder(env) && IsInstant(j.createdAt) && IsBareDate(Trim(day))
    ensures IsCalendarDate(Trim(day)) ==>
              (Keeps(env, EVERY_JOB.(to := Some(day)), j) <==> LexLe(j.createdAt[..10], Trim(day)))
    ensures env.parseDate(Trim(day) + LAST_INSTANT).None? ==> Keeps(env, EVERY_JOB.(to := Some(day)), j)
  {
    hide IsBareDate, IsCalendarDate, IsTimeOfDay, IncludesCI, Sequences.Filter, LexLe, Trim;
    NothingAsked(env);
    BlankIsNoDate();
    DateLength(Trim(day));
    if IsCalendarDate(Trim(day)) {
      DayEnds(Trim(day));
      LastIsLatest(j.createdAt[10..]);
      assert j.createdAt == j.createdAt[..10] + j.createdAt[10..];
      LexOfParts(j.createdAt[..10], j.createdAt[10..], Trim(day), LAST_INSTANT);
      LexTotal(j.createdAt[..10], j.createdAt[..10]);
    }
  }

  ghost predicate AllDigits(s: string) {
    forall i :: 0 <= i < |s| ==> '0' <= s[i] <= '9'
  }

  /** A bare date is four digits, two and two, with hyphens between, and nothing else. */
  lemma BareDateExactly(y: string, m: string, d: string)
    requires |y| == 4 && |m| == 2 && |d| == 2
    ensures IsBareDate(y + "-" + m + "-" + d) <==> AllDigits(y) && AllDigits(m) && AllDigits(d)
  {
    var s := y + "-" + m + "-" + d;
    assert s[0] == y[0] && s[1] == y[1] && s[2] == y[2] && s[3] == y[3];
    assert s[5] == m[0] && s[6] == m[1] && s[8] == d[0] && s[9] == d[1];
  }

  lemma BareDateParts(s: string)
    requires IsBareDate(s)
    ensures |s| == 10 && s == s[..4] + "-" + s[5..7] + "-" + s[8..]
  {
  }

  /** The calendar the predicate knows, at its edges. */
  lemma CalendarExamples()
    ensures IsCalendarDate("2024-02-29") && !IsCalendarDate("2023-02-29")
    ensures !IsCalendarDate("2024-13-01") && !IsBareDate("2024-4-30")
  {
    assert |"2024-02-29"| == 10;
  }

  lemma TimeExamples()
    ensures IsTimeOfDay("T00:00:00.000Z") && IsTimeOfDay(LAST_INSTANT) && !IsTimeOfDay("T24:00:00.000Z")
  {
  }

  lemma InstantExample()
    ensures IsInstant("2024-02-29T00:00:00.000Z")
  {
    hide IsCalendarDate, IsTimeOfDay;
    CalendarExamples();
    TimeExamples();
    var s := "2024-02-29T00:00:00.000Z";
    assert s[..10] == "2024-02-29" && s[10..] == "T00:00:00.000Z";
  }

  lemma DateLength(s: string)
    requires IsBareDate(s)
    ensures |s| == 10
  {
  }

  lemma DayEnds(day: string)
    requires IsCalendarDate(day)
    ensures IsInstant(day + LAST_INSTANT)
  {
    assert (day + LAST_INSTANT)[..10] == day && (day + LAST_INSTANT)[10..] == LAST_INSTANT;
  }

  /** The last millisecond is the greatest time of day. */
  lemma LastIsLatest(t: string)
    requires IsTimeOfDay(t)
    ensures LexLe(t, LAST_INSTANT)
  {
    if t[1] == '2' {
      forall i | 0 <= i < 14 ensures t[i] <= LAST_INSTANT[i] {
        assert i !in {0, 3, 6, 9, 13} ==> IsDigit(t[i]);
        assert IsDigit(t[1]) && IsDigit(t[2]) && IsDigit(t[4]) && IsDigit(t[5]) && IsDigit(t[7]) && IsDigit(t[8]);
      }
      PointwiseLex(t, LAST_INSTANT);
    } else {
      assert IsDigit(t[1]) && IsDigit(t[2]);
      assert t[1..][0] < LAST_INSTANT[1..][0];
      assert LexLe(t[1..], LAST_INSTANT[1..]);
    }
  }

  lemma {:induction false} PointwiseLex(a: string, b: string)
    requires |a| == |b| && forall i :: 0 <= i < |a| ==> a[i] <= b[i]
    ensures LexLe(a, b)
  {
    if a != [] && a[0] == b[0] {
      PointwiseLex(a[1..], b[1..]);
    }
  }

  lemma {:induction false} LexOfParts(a: string, x: string, b: string, y: string)
    requires |a| == |b|
    ensures LexLe(a + x, b + y) <==> if a == b then LexLe(x, y) else LexLe(a, b)
  {
    if a == [] {
      assert a + x == x && b + y == y;
    } else {
      assert (a + x)[1..] == a[1..] + x && (b + y)[1..] == b[1..] + y;
      LexOfParts(a[1..], x, b[1..], y);
      assert a == [a[0]] + a[1..] && b == [b[0]] + b[1..];
    }
  }

  lemma BlankIsNoDate()
    ensures !IsBareDate("")
  {
  }

  // ─── Sorting ───

  datatype JobSort = JobSort(field: string, ascending: bool)

  /** The field sorted by: an unknown or missing one falls back to creation time. */
  function KeyOf(sort: Option<JobSort>, j: Job): string {
    if sort.None? then j.createdAt
    else match sort.value.field
         case "id" => j.id
         case "status" => j.status
         case "updatedAt" => j.updatedAt
         case _ => j.createdAt
  }

  predicate Ascending(sort: Option<JobSort>) {
    sort.Some? && sort.value.ascending
  }

  predicate JobLe(sort: Option<JobSort>, a: Job, b: Job) {
    if Ascending(sort) then LexLe(KeyOf(sort, a), KeyOf(sort, b)) else LexLe(KeyOf(sort, b), KeyOf(sort, a))
  }

  function SortJobs(jobs: seq<Job>, sort: Option<JobSort>): seq<Job> {
    StableSort((a, b) => JobLe(sort, a, b), jobs)
  }

  lemma JobLePreorder(sort: Option<JobSort>)
    ensures TotalPreorder((a, b) => JobLe(sort, a, b))
  {
    forall a, b ensures JobLe(sort, a, b) || JobLe(sort, b, a) {
      LexTotal(KeyOf(sort, a), KeyOf(sort, b));
    }
    forall a, b, c | JobLe(sort, a, b) && JobLe(sort, b, c) ensures JobLe(sort, a, c) {
      if Ascending(sort) {
        LexTransitive(KeyOf(sort, a), KeyOf(sort, b), KeyOf(sort, c));
      } else {
        LexTransitive(KeyOf(sort, c), KeyOf(sort, b), KeyOf(sort, a));
      }
    }
  }

  /** Filtering and sorting commute, for every list, filter and sort. */
  lemma FilterSortCommute(env: Env, jobs: seq<Job>, f: JobFilter, sort: Option<JobSort>)
    ensures SortJobs(FilterJobs(env, jobs, f), sort) == FilterJobs(env, SortJobs(jobs, sort), f)
  {
    JobLePreorder(sort);
    SortFilterCommute((a, b) => JobLe(sort, a, b), j => Keeps(env, f, j), jobs);
  }

  /** The sort permutes, orders by the key in the chosen direction, and is idempotent. */
  lemma SortFacts(jobs: seq<Job>, sort: Option<JobSort>)
    ensures multiset(SortJobs(jobs, sort)) == multiset(jobs)
    ensures forall i, j :: 0 <= i < j < |SortJobs(jobs, sort)| ==>
              JobLe(sort, SortJobs(jobs, sort)[i], SortJobs(jobs, sort)[j])
    ensures SortJobs(SortJobs(jobs, sort), sort) == SortJobs(jobs, sort)
  {
    var le := (a, b) => JobLe(sort, a, b);
    JobLePreorder(sort);
    StableSortFacts(le, jobs);
    SortFixesExactlySorted(le, SortJobs(jobs, sort));
  }

  predicate InOrder(ascending: bool, a: string, b: string) {
    if ascending then LexLe(a, b) else LexLe(b, a)
  }

  /** Sorting by a column orders by that column's field, one that is not sortable by
      creation time; with no sort the newest job comes first. */
  lemma SortsByTheNamedField(jobs: seq<Job>, ascending: bool, i: nat, j: nat, other: string)
    requires i < j < |jobs|
    ensures var r := SortJobs(jobs, Some(JobSort(other, ascending)));
            other !in {"id", "status", "updatedAt"} ==>
              |r| == |jobs| && InOrder(ascending, r[i].createdAt, r[j].createdAt)
    ensures var r := SortJobs(jobs, Some(JobSort("id", ascending)));
            |r| == |jobs| && InOrder(ascending, r[i].id, r[j].id)
    ensures var r := SortJobs(jobs, Some(JobSort("status", ascending)));
            |r| == |jobs| && InOrder(ascending, r[i].status, r[j].status)
    ensures var r := SortJobs(jobs, Some(JobSort("createdAt", ascending)));
            |r| == |jobs| && InOrder(ascending, r[i].createdAt, r[j].createdAt)
    ensures var r := SortJobs(jobs, Some(JobSort("updatedAt", ascending)));
            |r| == |jobs| && InOrder(ascending, r[i].updatedAt, r[j].updatedAt)
    ensures var r := SortJobs(jobs, None);
            |r| == |jobs| && InOrder(false, r[i].createdAt, r[j].createdAt)
  {
    hide SortJobs, LexLe;
    SortedAt(jobs, Some(JobSort(other, ascending)), i, j);
    SortedAt(jobs, Some(JobSort("id", ascending)), i, j);
    SortedAt(jobs, Some(JobSort("status", ascending)), i, j);
    SortedAt(jobs, Some(JobSort("createdAt", ascending)), i, j);
    SortedAt(jobs, Some(JobSort("updatedAt", ascending)), i, j);
    SortedAt(jobs, None, i, j);
  }

  lemma SortedAt(jobs: seq<Job>, sort: Option<JobSort>, i: nat, j: nat)
    requires i < j < |jobs|
    ensures var r := SortJobs(jobs, sort);
            |r| == |jobs| && JobLe(sort, r[i], r[j])
  {
    SortFacts(jobs, sort);
    assert |multiset(SortJobs(jobs, sort))| == |multiset(jobs)|;
  }

  /** In both directions, the jobs that share a key keep their input order. */
  lemma EqualKeysKeepOrder(jobs: seq<Job>, sort: Option<JobSort>, key: string)
    ensures Sequences.Filter(j => KeyOf(sort, j) == key, SortJobs(jobs, sort))
         == Sequences.Filter(j => KeyOf(sort, j) == key, jobs)
  {
    var le := (a, b) => JobLe(sort, a, b);
    var keep := j => KeyOf(sort, j) == key;
    JobLePreorder(sort);
    SortFilterCommute(le, keep, jobs);
    LexTotal(key, key);
    SortFixesExactlySorted(le, Sequences.Filter(keep, jobs));
  }

  // ─── The decorated sort the table runs ───

  datatype Decorated = Decorated(job: Job, index: int)

  function Decorate(jobs: seq<Job>, start: nat): seq<Decorated> {
    if jobs == [] then [] else [Decorated(jobs[0], start)] + Decorate(jobs[1..], start + 1)
  }

  function Undecorate(ds: seq<Decorated>): (r: seq<Job>)
    ensures |r| == |ds|
  {
    if ds == [] then [] else [ds[0].job] + Undecorate(ds[1..])
  }

  /** The comparator ranks `a` before `b`: by key in the chosen direction, then by index. */
  predicate ComparesBelow(sort: Option<JobSort>, a: Decorated, b: Decorated) {
    if KeyOf(sort, a.job) == KeyOf(sort, b.job) then a.index < b.index
    else JobLe(sort, a.job, b.job)
  }

  function LeDecorated(sort: Option<JobSort>): (Decorated, Decorated) -> bool {
    (a: Decorated, b: Decorated) => JobLe(sort, a.job, b.job)
  }

  function Below(sort: Option<JobSort>): (Decorated, Decorated) -> bool {
    (a, b) => ComparesBelow(sort, a, b)
  }

  lemma {:induction false} DecorateFacts(jobs: seq<Job>, start: nat)
    ensures Undecorate(Decorate(jobs, start)) == jobs
    ensures |Decorate(jobs, start)| == |jobs|
    ensures forall i :: 0 <= i < |jobs| ==> Decorate(jobs, start)[i] == Decorated(jobs[i], start + i)
  {
    if jobs != [] {
      DecorateFacts(jobs[1..], start + 1);
      assert ([Decorated(jobs[0], start)] + Decorate(jobs[1..], start + 1))[1..] == Decorate(jobs[1..], start + 1);
    }
  }

  lemma {:induction false} UndecorateInsert(sort: Option<JobSort>, d: Decorated, ds: seq<Decorated>)
    ensures Undecorate(Insert(LeDecorated(sort), d, ds))
         == Insert((a, b) => JobLe(sort, a, b), d.job, Undecorate(ds))
  {
    var le := LeDecorated(sort);
    if ds != [] {
      UndecorateInsert(sort, d, ds[1..]);
      assert Undecorate(ds)[1..] == Undecorate(ds[1..]);
      assert ([d] + ds)[1..] == ds;
      assert ([ds[0]] + Insert(le, d, ds[1..]))[1..] == Insert(le, d, ds[1..]);
    }
  }

  /** Stable-sorting the decorated list carries each job's index along, and keeps
      equal keys in index order. */
  lemma {:induction false} DecoratedStableSort(sort: Option<JobSort>, jobs: seq<Job>, start: nat)
    ensures var ds := StableSort(LeDecorated(sort), Decorate(jobs, start));
            && Undecorate(ds) == SortJobs(jobs, sort)
            && Sorted(Below(sort), ds)
            && multiset(ds) == multiset(Decorate(jobs, start))
            && forall d :: d in ds ==> d.index >= start
  {
    var le := LeDecorated(sort);
    if jobs != [] {
      var first, rest := Decorated(jobs[0], start), StableSort(le, Decorate(jobs[1..], start + 1));
      DecoratedStableSort(sort, jobs[1..], start + 1);
      assert Decorate(jobs, start)[1..] == Decorate(jobs[1..], start + 1);
      UndecorateInsert(sort, first, rest);
      InsertBelow(sort, first, rest);
      assert Decorate(jobs, start) == [first] + Decorate(jobs[1..], start + 1);
      forall d | d in Insert(le, first, rest) ensures d.index >= start {
        assert d in multiset(Insert(le, first, rest));
      }
    }
  }

  lemma InsertBelow(sort: Option<JobSort>, d: Decorated, ds: seq<Decorated>)
    requires Sorted(Below(sort), ds)
    requires forall e :: e in ds ==> e.index > d.index
    ensures var r := Insert(LeDecorated(sort), d, ds);
            && Sorted(Below(sort), r)
            && multiset(r) == multiset(ds) + multiset{d}
  {
    var le, below := LeDecorated(sort), Below(sort);
    hide ComparesBelow, JobLe;
    forall e | e in ds && !le(d, e) ensures below(e, d) {
      NotBelow(sort, d, e);
    }
    forall h, e | h in ds && e in ds && le(d, h) && (e == h || below(h, e)) ensures below(d, e) {
      BelowChains(sort, d, h, e);
    }
    InsertKeepsOrder(le, below, d, ds);
    InsertMembers(le, d, ds);
  }

  lemma NotBelow(sort: Option<JobSort>, d: Decorated, head: Decorated)
    requires !JobLe(sort, d.job, head.job)
    ensures ComparesBelow(sort, head, d)
  {
    LexTotal(KeyOf(sort, d.job), KeyOf(sort, head.job));
  }

  lemma BelowChains(sort: Option<JobSort>, d: Decorated, head: Decorated, e: Decorated)
    requires JobLe(sort, d.job, head.job)
    requires e == head || ComparesBelow(sort, head, e)
    requires e.index > d.index
    ensures ComparesBelow(sort, d, e)
  {
    var x, y, z := KeyOf(sort, d.job), KeyOf(sort, head.job), KeyOf(sort, e.job);
    LexTotal(y, z);
    if Ascending(sort) {
      LexTransitive(x, y, z);
    } else {
      LexTransitive(z, y, x);
    }
  }

  lemma BelowIsStrict(sort: Option<JobSort>, a: Decorated, b: Decorated)
    requires ComparesBelow(sort, a, b)
    ensures !ComparesBelow(sort, b, a)
  {
    var x, y := KeyOf(sort, a.job), KeyOf(sort, b.job);
    if LexLe(x, y) && LexLe(y, x) {
      LexAntisymmetric(x, y);
    }
  }

  /** Whatever algorithm the engine sorts with: if it permutes the decorated list
      into the order of the comparator, stripping the decoration gives SortJobs. */
  lemma EveryEngineSortsAlike(sort: Option<JobSort>, jobs: seq<Job>, result: seq<Decorated>)
    requires multiset(result) == multiset(Decorate(jobs, 0))
    requires Sorted(Below(sort), result)
    ensures Undecorate(result) == SortJobs(jobs, sort)
  {
    var below := Below(sort);
    var ours := StableSort(LeDecorated(sort), Decorate(jobs, 0));
    DecoratedStableSort(sort, jobs, 0);
    forall a, b | below(a, b) ensures !below(b, a) {
      BelowIsStrict(sort, a, b);
    }
    SortedUnique(below, result, ours);
  }

  // ─── Paging the view ───

  function PageJobs(list: seq<Job>, offset: int, size: int): seq<Job> {
    Window(list, if offset > 0 then offset else 0, if size > 0 then size else JOBS_PAGE_SIZE)
  }

  function FilterOf(s: State): JobFilter {
    var get := (name: string) => if name in s.filters then Some(s.filters[name]) else None;
    JobFilter(if "status" in s.filters then [s.filters["status"]] else [],
              get("from"), get("to"),
              if "q" in s.filters then s.filters["q"] else "")
  }

  function SortOf(s: State): Option<JobSort> {
    if s.sort.columnKey.None? || s.sort.columnKey.value == "" then None
    else Some(JobSort(s.sort.columnKey.value, s.sort.direction == Asc))
  }

  /** The matching jobs, in order. */
  function Matching(env: Env, workingSet: seq<Job>, s: State): seq<Job> {
    SortJobs(FilterJobs(env, workingSet, FilterOf(s)), SortOf(s))
  }

  /** What the store's filters ask of the rendered view: a job is in it exactly when it
      is in the working set, has the status asked for, if any, is not before the start
      date nor after the end date, and is found by the search text. */
  lemma MatchingExactly(env: Env, workingSet: seq<Job>, s: State, j: Job)
    ensures j in Matching(env, workingSet, s) <==>
            && j in workingSet
            && (Get(s.filters, "status") == "" || j.status == Get(s.filters, "status"))
            && Keeps(env, EVERY_JOB.(from := Some(Get(s.filters, "from"))), j)
            && Keeps(env, EVERY_JOB.(to := Some(Get(s.filters, "to"))), j)
            && Keeps(env, EVERY_JOB.(q := Get(s.filters, "q")), j)
  {
    hide Keeps, SortJobs, Trim;
    var f := FilterOf(s);
    SortFacts(FilterJobs(env, workingSet, f), SortOf(s));
    assert j in Matching(env, workingSet, s) <==> j in multiset(Matching(env, workingSet, s));
    assert j in FilterJobs(env, workingSet, f) <==> j in multiset(FilterJobs(env, workingSet, f));
    FilterMembers(workingSet, j, x => Keeps(env, f, x));
    KeepsSplits(env, f, j);
    StatusAsked(env, s, j);
    BlankBounds(env, s, j);
  }

  lemma StatusAsked(env: Env, s: State, j: Job)
    ensures Keeps(env, OnlyStatus(FilterOf(s)), j)
       <==> Get(s.filters, "status") == "" || j.status == Get(s.filters, "status")
  {
    hide FilterJobs;
    var status := Get(s.filters, "status");
    StatusFilterExactly(env, [j], FilterOf(s).status, j);
    FilterMembers([j], j, x => Keeps(env, OnlyStatus(FilterOf(s)), x));
    assert FilterOf(s).status == if "status" in s.filters then [status] else [];
    OnlyJob(env, OnlyStatus(FilterOf(s)), j);
  }

  lemma OnlyJob(env: Env, f: JobFilter, j: Job)
    ensures j in FilterJobs(env, [j], f) <==> Keeps(env, f, j)
  {
    FilterMembers([j], j, x => Keeps(env, f, x));
  }

  /** An absent date and a blank one bound alike: not at all. */
  lemma BlankBounds(env: Env, s: State, j: Job)
    ensures Keeps(env, OnlyFrom(FilterOf(s)), j) == Keeps(env, EVERY_JOB.(from := Some(Get(s.filters, "from"))), j)
    ensures Keeps(env, OnlyTo(FilterOf(s)), j) == Keeps(env, EVERY_JOB.(to := Some(Get(s.filters, "to"))), j)
    ensures OnlySearch(FilterOf(s)) == EVERY_JOB.(q := Get(s.filters, "q"))
  {
    hide IncludesCI, IsBareDate, Sequences.Filter;
  }

  /** What the store's sort asks of it: the view is in the order of the chosen column,
      ascending exactly when the store says so; without a column the newest come first. */
  lemma MatchingIsSorted(env: Env, workingSet: seq<Job>, s: State, i: nat, j: nat)
    requires i < j < |Matching(env, workingSet, s)|
    ensures var r := Matching(env, workingSet, s);
            var up := s.sort.direction == Asc;
            && (s.sort.columnKey == Some("id") ==> InOrder(up, r[i].id, r[j].id))
            && (s.sort.columnKey == Some("status") ==> InOrder(up, r[i].status, r[j].status))
            && (s.sort.columnKey == Some("updatedAt") ==> InOrder(up, r[i].updatedAt, r[j].updatedAt))
            && (s.sort.columnKey == Some("createdAt") ==> InOrder(up, r[i].createdAt, r[j].createdAt))
            && (s.sort.columnKey == None ==> InOrder(false, r[i].createdAt, r[j].createdAt))
  {
    hide FilterJobs, LexLe, SortJobs;
    var jobs := FilterJobs(env, workingSet, FilterOf(s));
    SortFacts(jobs, SortOf(s));
    assert |multiset(SortJobs(jobs, SortOf(s)))| == |multiset(jobs)|;
    SortsByTheNamedField(jobs, s.sort.direction == Asc, i, j, "");
  }

  /** Every matching job of the working set is shown exactly once on the way
      through the pages, in the sorted order, and no other job is. */
  lemma PagesShowEveryMatch(env: Env, workingSet: seq<Job>, s: State)
    requires s.mode == OffsetPaging && s.pageSize == JOBS_PAGE_SIZE && s.offset == 0
    requires s.total == Some(|Matching(env, workingSet, s)|)
    ensures var pages := Walk(s, Matching(env, workingSet, s));
            && Flatten(pages) == Matching(env, workingSet, s)
            && multiset(Flatten(pages)) == multiset(FilterJobs(env, workingSet, FilterOf(s)))
            && Flatten(pages) == FilterJobs(env, SortJobs(workingSet, SortOf(s)), FilterOf(s))
  {
    WalkVisitsAll(s, Matching(env, workingSet, s));
    SortFacts(FilterJobs(env, workingSet, FilterOf(s)), SortOf(s));
    FilterSortCommute(env, workingSet, FilterOf(s), SortOf(s));
  }

  // ─── The table itself ───

  /** What the table's body shows; the pager is on screen only when it is `Ready`. */
  datatype Status = Ready | Empty | Loading | Failed

  /** A control, the start of a fetch, and its answer: a working set or a failure. */
  datatype Event =
    | Operate(op: Op)
    | FetchBegins(silent: bool)
    | FetchEnds(silent: bool, answer: Option<seq<Job>>)

  /** The working set whose answer arrived last, in a run that began with `now`. */
  function LastArrived(now: seq<Job>, evs: seq<Event>): seq<Job>
    decreases |evs|
  {
    if evs == [] then now
    else LastArrived(if evs[0].FetchEnds? && evs[0].answer.Some? then evs[0].answer.value else now, evs[1..])
  }

  class Table {
    const env: Env
    const store: OpsTableState
    var workingSet: seq<Job>
    var renderingView: bool
    var shown: seq<Job>
    var status: Status

    /** The rendered rows are the current page of the matching jobs, and the store
        knows how many match. */
    ghost predicate Rendered()
      reads this, store
    {
      var s := store.GetState();
      var matching := Matching(env, workingSet, s);
      && store.total == Some(|matching|)
      && shown == Window(matching, s.offset, JOBS_PAGE_SIZE)
      && (status == Ready ==> shown != []) && (status == Empty ==> shown == [])
    }

    /** The rows are what the table's body shows. */
    predicate Painted()
      reads this
    {
      status == if shown == [] then Empty else Ready
    }

    ghost predicate Valid()
      reads this, store
    {
      store.mode == OffsetPaging && store.pageSize == JOBS_PAGE_SIZE && !renderingView && Rendered()
    }

    constructor (env: Env, store: OpsTableState, firstWindow: seq<Job>)
      requires store.mode == OffsetPaging && store.pageSize == JOBS_PAGE_SIZE
      modifies store
      ensures Valid() && Painted() && this.store == store && this.env == env && workingSet == firstWindow
      ensures store.GetState() == old(store.GetState()).(
                total := Some(|Matching(env, firstWindow, old(store.GetState()))|))
    {
      this.env, this.store, this.workingSet := env, store, firstWindow;
      renderingView, shown, status := false, [], Empty;
      new;
      RenderView();
    }

    /** Recompute the view once; the emit of the store's own bookkeeping comes
        back here and is swallowed. */
    method RenderView()
      requires store.mode == OffsetPaging && store.pageSize == JOBS_PAGE_SIZE
      modifies this`renderingView, this`shown, this`status, store
      ensures renderingView == old(renderingView)
      ensures old(renderingView) ==>
                shown == old(shown) && status == old(status) && store.GetState() == old(store.GetState())
      ensures !old(renderingView) ==> Rendered() && Painted()
      ensures !old(renderingView) ==>
                store.GetState() == old(store.GetState()).(
                  total := Some(|Matching(env, workingSet, old(store.GetState()))|))
      decreases if renderingView then 0 else 1, 1
    {
      hide FilterJobs, SortJobs, Window;
      if renderingView { return; }
      renderingView := true;
      var snap := store.GetState();
      var filtered := SortJobs(FilterJobs(env, workingSet, FilterOf(snap)), SortOf(snap));
      store.SetInfo(PageInfo(Some(|filtered|), None));
      OnEmit();
      shown := PageJobs(filtered, snap.offset, JOBS_PAGE_SIZE);
      status := if shown == [] then Empty else Ready;
      renderingView := false;
    }

    /** The subscription to the store. */
    method OnEmit()
      requires store.mode == OffsetPaging && store.pageSize == JOBS_PAGE_SIZE
      modifies this`renderingView, this`shown, this`status, store
      ensures renderingView == old(renderingView)
      ensures old(renderingView) ==>
                shown == old(shown) && status == old(status) && store.GetState() == old(store.GetState())
      ensures !old(renderingView) ==> Rendered() && Painted()
      ensures !old(renderingView) ==>
                store.GetState() == old(store.GetState()).(
                  total := Some(|Matching(env, workingSet, old(store.GetState()))|))
      decreases if renderingView then 0 else 1, 2
    {
      RenderView();
    }

    method OperateControl(op: Op)
      requires Valid() && !op.SetPageInfo?
      modifies this`renderingView, this`shown, this`status, store
      ensures Valid()
      ensures store.GetState() == Apply(old(store.GetState()), op).(total := store.total)
    {
      var emitted := store.Do(op);
      if emitted {
        OnEmit();
      }
    }

    method BeginFetch(silent: bool)
      requires Valid()
      modifies this`status
      ensures Valid()
      ensures status == if silent then old(status) else Loading
    {
      if !silent {
        status := Loading;
      }
    }

    /** A fetch ends, be it the latest or one that was overtaken. With a working set
        the table shows it, on the page the operator was on: nothing is on that page
        exactly when the matches no longer reach it, and then, though jobs may match,
        the pager is gone as well. A failure changes no row, and a silent one nothing. */
    method EndFetch(silent: bool, answer: Option<seq<Job>>)
      requires Valid()
      modifies this, store
      ensures Valid()
      ensures workingSet == if answer.Some? then answer.value else old(workingSet)
      ensures store.GetState() == old(store.GetState()).(total := store.total)
      ensures answer.Some? ==> Painted()
      ensures answer.Some? ==>
                (status == Empty <==> old(store.offset) >= |Matching(env, answer.value, old(store.GetState()))|)
      ensures answer.None? ==> shown == old(shown) && store.GetState() == old(store.GetState())
      ensures answer.None? ==> status == if silent then old(status) else Failed
    {
      if answer.None? {
        if !silent {
          status := Failed;
        }
        return;
      }
      hide FilterJobs, SortJobs;
      workingSet := answer.value;
      RenderView();
      assert Matching(env, workingSet, store.GetState()) == Matching(env, workingSet, old(store.GetState()));
    }

    /** Over any run, fetches that overtake one another included, the rendered rows
        are the current page of the matches of the working set that arrived last. */
    method Replay(evs: seq<Event>)
      requires Valid() && forall ev :: ev in evs && ev.Operate? ==> !ev.op.SetPageInfo?
      modifies this, store
      ensures Valid() && workingSet == LastArrived(old(workingSet), evs)
    {
      var i := 0;
      while i < |evs|
        invariant 0 <= i <= |evs|
        invariant Valid() && LastArrived(workingSet, evs[i..]) == LastArrived(old(workingSet), evs)
      {
        assert evs[i..][0] == evs[i] && evs[i..][1..] == evs[i + 1..];
        match evs[i] {
          case Operate(op) => OperateControl(op);
          case FetchBegins(silent) => BeginFetch(silent);
          case FetchEnds(silent, answer) => EndFetch(silent, answer);
        }
        i := i + 1;
      }
    }
  }
}
