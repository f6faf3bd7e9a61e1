/**
 * The "View & Manage" filter: a record is listed when its type and category
 * are selected, its date lies in the chosen range (both ends included) and,
 * when a search term is typed, its description contains the term ignoring case.
 */
module Filter {
  import opened Wrappers
  import opened Ledger

  /** The accepted dates; a missing bound does not restrict that side. */
  datatype DateWindow = DateWindow(from: Option<Date>, until: Option<Date>)

  datatype Criteria = Criteria(kinds: set<Kind>, categories: set<string>, window: DateWindow, search: string)

  predicate InWindow(d: Date, w: DateWindow) {
    (w.from.None? || w.from.value <= d) && (w.until.None? || d <= w.until.value)
  }

  // ------------------------------------------------------ text search

  /** ASCII case folding of one character. */
  function Lower(c: char): char {
    if 'A' <= c <= 'Z' then (c as int - 'A' as int + 'a' as int) as char else c
  }

  function LowerString(s: string): (r: string)
    ensures |r| == |s|
  {
    seq(|s|, i requires 0 <= i < |s| => Lower(s[i]))
  }

  /** `p` occurs in `s` starting at position `i`. */
  predicate OccursAt(s: string, p: string, i: int) {
    0 <= i && i + |p| <= |s| && s[i..i + |p|] == p
  }

  /** `term` occurs somewhere in `text` once both are case folded. */
  function ContainsIgnoringCase(text: string, term: string): (r: bool)
    ensures |term| > |text| ==> !r
    ensures term == text ==> r
  {
    assert OccursAt(LowerString(text), LowerString(text), 0);
    exists i | 0 <= i <= |text| :: OccursAt(LowerString(text), LowerString(term), i)
  }

  lemma LowerStringIdempotent(s: string)
    ensures LowerString(LowerString(s)) == LowerString(s)
  {
  }

  /** The search does not depend on the case of the term typed. */
  lemma SearchIgnoresCaseOfTerm(text: string, term: string)
    ensures ContainsIgnoringCase(text, term) <==> ContainsIgnoringCase(text, LowerString(term))
  {
    LowerStringIdempotent(term);
  }

  /** The search does not depend on the case of the description either. */
  lemma SearchIgnoresCaseOfText(text: string, term: string)
    ensures ContainsIgnoringCase(text, term) <==> ContainsIgnoringCase(LowerString(text), term)
  {
    LowerStringIdempotent(text);
  }

  /** Every description contains the empty term, so an empty search box hides nothing. */
  lemma EmptyTermAlwaysFound(text: string)
    ensures ContainsIgnoringCase(text, "")
  {
    assert OccursAt(LowerString(text), LowerString(""), 0);
  }

  // ------------------------------------------------------ the mask

  /** The mask: all four conditions at once; the search applies only when the term is non-empty. */
  function Matches(t: Transaction, c: Criteria): (r: bool)
    ensures r <==>
      t.kind in c.kinds && t.category in c.categories && InWindow(t.date, c.window)
      && ContainsIgnoringCase(t.description, c.search)
  {
    EmptyTermAlwaysFound(t.description);
    && t.kind in c.kinds
    && t.category in c.categories
    && InWindow(t.date, c.window)
    && (c.search == "" || ContainsIgnoringCase(t.description, c.search))
  }

  /** `df[mask]`: exactly the matching records, in ledger order. */
  function Select(ts: seq<Transaction>, c: Criteria): (r: seq<Transaction>)
    ensures forall t :: t in r <==> t in ts && Matches(t, c)
    ensures IsSubsequence(r, ts)
    ensures |r| <= |ts|
  {
    if ts == [] then []
    else
      var rest := Select(ts[1..], c);
      assert forall t | t in ts :: t == ts[0] || t in ts[1..];
      assert forall t | t in ts[1..] :: t in ts;
      if Matches(ts[0], c) then
        var r := [ts[0]] + rest;
        assert r[1..] == rest;
        r
      else
        assert rest == [] || IsSubsequence(rest, ts[1..]);
        rest
  }

  /** `df[mask]` keeps every copy of a matching row and no copy of any other. */
  lemma {:induction false} SelectKeepsEveryCopy(ts: seq<Transaction>, c: Criteria)
    ensures forall t :: multiset(Select(ts, c))[t] == if Matches(t, c) then multiset(ts)[t] else 0
  {
    if ts != [] {
      SelectKeepsEveryCopy(ts[1..], c);
      assert ts == [ts[0]] + ts[1..];
      if Matches(ts[0], c) {
        assert Select(ts, c) == [ts[0]] + Select(ts[1..], c);
      }
    }
  }

  /** When every record matches, the filter lists the whole ledger in its order. */
  lemma {:induction false} SelectAllMatching(ts: seq<Transaction>, c: Criteria)
    requires forall t | t in ts :: Matches(t, c)
    ensures Select(ts, c) == ts
  {
    if ts != [] {
      assert ts[0] in ts;
      assert forall t | t in ts[1..] :: t in ts;
      SelectAllMatching(ts[1..], c);
      assert ts == [ts[0]] + ts[1..];
    }
  }

  /** After a delete, the filter never lists a record with the deleted id. */
  lemma DeletedNeverListed(ts: seq<Transaction>, id: int, c: Criteria)
    ensures forall t | t in Select(RemoveIds(ts, {id}), c) :: t.id != id
  {
  }

  // ------------------------------------------------------ default filters

  /** `df['date'].min()`: the earliest date, which some record carries. */
  function MinDate(ts: seq<Transaction>): (d: Date)
    requires ts != []
    ensures forall t | t in ts :: d <= t.date
    ensures DateOccurs(ts, d)
  {
    assert ts[0] in ts;
    if |ts| == 1 then ts[0].date
    else
      var rest := MinDate(ts[1..]);
      assert forall t | t in ts :: t == ts[0] || t in ts[1..];
      if ts[0].date <= rest then ts[0].date else rest
  }

  /** `df['date'].max()`: the latest date, which some record carries. */
  function MaxDate(ts: seq<Transaction>): (d: Date)
    requires ts != []
    ensures forall t | t in ts :: t.date <= d
    ensures DateOccurs(ts, d)
  {
    assert ts[0] in ts;
    if |ts| == 1 then ts[0].date
    else
      var rest := MaxDate(ts[1..]);
      assert forall t | t in ts :: t == ts[0] || t in ts[1..];
      if ts[0].date >= rest then ts[0].date else rest
  }

  /** Some record of the ledger has date `d`. */
  predicate DateOccurs(ts: seq<Transaction>, d: Date) {
    exists t | t in ts :: t.date == d
  }

  /**
   * The filters as first shown: every type and category present, the range
   * from the earliest to the latest date, and no search term.
   */
  function DefaultCriteria(ts: seq<Transaction>): (c: Criteria)
    requires ts != []
    ensures forall t | t in ts :: t.kind in c.kinds && t.category in c.categories && InWindow(t.date, c.window)
    ensures c.window.from.Some? && DateOccurs(ts, c.window.from.value)
    ensures c.window.until.Some? && DateOccurs(ts, c.window.until.value)
    ensures c.search == ""
  {
    var window := DateWindow(Some(MinDate(ts)), Some(MaxDate(ts)));
    assert forall t | t in ts :: InWindow(t.date, window);
    Criteria(set t | t in ts :: t.kind, set t | t in ts :: t.category, window, "")
  }

  /** With the default filters the page lists every transaction. */
  lemma DefaultFiltersShowAll(ts: seq<Transaction>)
    requires ts != []
    ensures Select(ts, DefaultCriteria(ts)) == ts
  {
    SelectAllMatching(ts, DefaultCriteria(ts));
  }

  // ------------------------------------------------------ the date range

  datatype FilterError = IndexError

  /**
   * The range as the code reads it: `date_range[0]` and `date_range[1]`. The
   * date widget yields fewer than two dates while a range is being picked,
   * and then the indexing fails.
   */
  function WindowAsWritten(range: seq<Date>): (r: Result<DateWindow, FilterError>)
    ensures r.Failure? <==> |range| < 2
    ensures r.Success? ==> forall d :: InWindow(d, r.value) <==> range[0] <= d <= range[1]
  {
    if |range| < 2 then Failure(IndexError)
    else Success(DateWindow(Some(range[0]), Some(range[1])))
  }

  /** The filter as written: it fails outright on a partial range. */
  function FilterAsWritten(ts: seq<Transaction>, kinds: set<Kind>, categories: set<string>,
                           range: seq<Date>, search: string): (r: Result<seq<Transaction>, FilterError>)
    ensures r.Failure? <==> |range| < 2
  {
    match WindowAsWritten(range)
    case Failure(e) => Failure(e)
    case Success(w) => Success(Select(ts, Criteria(kinds, categories, w, search)))
  }

  /** Picking the first day of a new range makes the page fail, whatever the ledger holds. */
  lemma PartialRangeFailsAsWritten(ts: seq<Transaction>, kinds: set<Kind>, categories: set<string>,
                                   d: Date, search: string)
    ensures FilterAsWritten(ts, kinds, categories, [d], search) == Failure(IndexError)
  {
  }

  /** The range as intended: the dates given bound the window, a missing one does not. */
  function WindowOf(range: seq<Date>): (w: DateWindow)
    ensures |range| >= 2 ==> forall d :: InWindow(d, w) <==> range[0] <= d <= range[1]
    ensures |range| == 1 ==> forall d :: InWindow(d, w) <==> range[0] <= d
    ensures range == [] ==> forall d :: InWindow(d, w)
  {
    if |range| == 0 then DateWindow(None, None)
    else if |range| == 1 then DateWindow(Some(range[0]), None)
    else DateWindow(Some(range[0]), Some(range[1]))
  }

  /** The filter as intended: it never fails, whatever the date selection, and agrees with the code whenever the code succeeds. */
  function ViewFilter(ts: seq<Transaction>, kinds: set<Kind>, categories: set<string>,
                      range: seq<Date>, search: string): (r: seq<Transaction>)
    ensures FilterAsWritten(ts, kinds, categories, range, search).Success? ==>
              FilterAsWritten(ts, kinds, categories, range, search).value == r
    ensures forall t :: t in r <==> t in ts && Matches(t, Criteria(kinds, categories, WindowOf(range), search))
    ensures forall t :: multiset(r)[t] ==
              if Matches(t, Criteria(kinds, categories, WindowOf(range), search)) then multiset(ts)[t] else 0
  {
    SelectKeepsEveryCopy(ts, Criteria(kinds, categories, WindowOf(range), search));
    Select(ts, Criteria(kinds, categories, WindowOf(range), search))
  }
}
