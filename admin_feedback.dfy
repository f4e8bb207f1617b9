/**
 * The administrator's feedback table (pages/admin/AdminFeedbackPage.tsx):
 * filtering, pagination, the CSV export, row selection and the request for a
 * summary of the selected messages.
 */
module AdminFeedback {
  import opened Wrappers
  import opened Types
  import Text
  import Seqs
  import Sorting

  // ---------------------------------------------------------------- the loaded list

  /** `allFeedback`: every stored record, newest first, the same records as often as stored. */
  function LoadFeedback(stored: seq<Feedback>): (all: seq<Feedback>)
    ensures Sorting.SortedDesc(all, FeedbackCreatedAt)
    ensures multiset(all) == multiset(stored)
  {
    Sorting.SortDesc(stored, FeedbackCreatedAt)
  }

  // ---------------------------------------------------------------- filters

  /** The three filter inputs; the empty string means "no filter". */
  datatype Filters = Filters(course: string, rating: string, student: string)

  const NoFilters := Filters("", "", "")

  /**
   * The test applied to each record. A non-empty rating filter is read with
   * `parseInt`, and a filter that does not parse (NaN) matches no rating.
   */
  predicate Matches(filters: Filters, f: Feedback): (b: bool)
    // with no filter set every record passes
    ensures filters == NoFilters ==> b
    // a rating filter that does not parse passes nothing
    ensures filters.rating != "" && Text.ParseInt(filters.rating).None? ==> !b
    // a course filter passes only records of that course
    ensures b && filters.course != "" ==> f.courseId == filters.course
  {
    && (filters.course != "" ==> f.courseId == filters.course)
    && (filters.rating != "" ==> Text.ParseInt(filters.rating) == Some(f.rating))
    && (filters.student != "" ==> Text.Includes(Text.Lower(f.studentName), Text.Lower(filters.student)))
  }

  /** `filteredFeedback`: the matching records, in the order of `allFeedback`. */
  function FilterFeedback(all: seq<Feedback>, filters: Filters): (r: seq<Feedback>)
    ensures forall f :: f in r <==> f in all && Matches(filters, f)
    ensures Seqs.IsSubsequence(r, all)
    ensures forall f: Feedback :: Matches(filters, f) ==> multiset(r)[f] == multiset(all)[f]
    ensures |r| <= |all|
  {
    Seqs.FilterShrinks(all, MatcherOf(filters));
    var r := Seqs.Filter(all, MatcherOf(filters));
    forall f: Feedback | Matches(filters, f) ensures multiset(r)[f] == multiset(all)[f] {
      Seqs.FilterMultiplicity(all, MatcherOf(filters), f);
    }
    r
  }

  function MatcherOf(filters: Filters): Feedback -> bool {
    (f: Feedback) => Matches(filters, f)
  }

  /** With every filter empty the whole list is shown. */
  lemma NoFiltersKeepAll(all: seq<Feedback>)
    ensures FilterFeedback(all, NoFilters) == all
  {
    Seqs.FilterKeepsAll(all, MatcherOf(NoFilters));
  }

  /** A rating filter that is a rendered integer keeps exactly the records with that rating. */
  lemma RatingFilterSelects(all: seq<Feedback>, rating: int, f: Feedback)
    ensures f in FilterFeedback(all, Filters("", Text.IntToString(rating), "")) <==> f in all && f.rating == rating
  {
    Text.ParseIntOfIntToString(rating);
    assert Text.IntToString(rating) != "" by {
      if rating < 0 {} else {}
    }
  }

  /** A rating filter that is not a number shows nothing. */
  lemma UnparsableRatingShowsNothing(all: seq<Feedback>, filters: Filters)
    requires filters.rating != "" && Text.ParseInt(filters.rating).None?
    ensures FilterFeedback(all, filters) == []
  {
    Seqs.FilterNone(all, MatcherOf(filters));
  }

  /** The student filter ignores case on both sides. */
  lemma StudentFilterIgnoresCase(all: seq<Feedback>, course: string, rating: string, student: string)
    ensures forall f :: f in FilterFeedback(all, Filters(course, rating, student)) <==>
                        f in FilterFeedback(all, Filters(course, rating, Text.Lower(student)))
  {
    Text.LowerIdempotent(student);
    forall f: Feedback ensures Matches(Filters(course, rating, student), f) <==> Matches(Filters(course, rating, Text.Lower(student)), f) {
      assert student != "" <==> Text.Lower(student) != "";
    }
  }

  /** Whatever the filters, the table stays newest first. */
  lemma FilteredStaysNewestFirst(stored: seq<Feedback>, filters: Filters)
    ensures Sorting.SortedDesc(FilterFeedback(LoadFeedback(stored), filters), FeedbackCreatedAt)
  {
    Sorting.SortedSubsequence(FilterFeedback(LoadFeedback(stored), filters), LoadFeedback(stored), FeedbackCreatedAt);
  }

  /** Records stamped at the same moment keep their store order in the table. */
  lemma LoadFeedbackStable(stored: seq<Feedback>, t: int)
    ensures Seqs.Filter(LoadFeedback(stored), Sorting.KeyIs(FeedbackCreatedAt, t)) == Seqs.Filter(stored, Sorting.KeyIs(FeedbackCreatedAt, t))
  {
    Sorting.SortDescStable(stored, FeedbackCreatedAt, t);
  }

  // ---------------------------------------------------------------- pagination

  const ItemsPerPage := 10

  /** `Array.prototype.slice`'s reading of an index: negative counts from the end, all clamped to `[0, n]`. */
  function ClampIndex(i: int, n: nat): (k: nat)
    ensures k <= n
    ensures 0 <= i <= n ==> k == i
    ensures i > n ==> k == n
    ensures i < 0 ==> k == (if n + i < 0 then 0 else n + i)
  {
    if i < 0 then (if n + i < 0 then 0 else n + i) else if i > n then n else i
  }

  /** `s.slice(start, end)`. */
  function Slice<T>(s: seq<T>, start: int, end: int): (r: seq<T>)
    ensures |r| <= |s|
    ensures end >= start >= 0 ==> |r| <= end - start
    ensures 0 <= start <= end ==>
      r == s[if start <= |s| then start else |s| .. if end <= |s| then end else |s|]
  {
    var a := ClampIndex(start, |s|);
    var b := ClampIndex(end, |s|);
    if a < b then s[a..b] else []
  }

  /** `paginatedFeedback`: page `currentPage` (counted from 1) of the list. */
  function PageOf<T>(s: seq<T>, currentPage: int): (r: seq<T>)
    ensures |r| <= ItemsPerPage
  {
    var start := (currentPage - 1) * ItemsPerPage;
    Slice(s, start, start + ItemsPerPage)
  }

  /** `Math.ceil(n / itemsPerPage)`. */
  function TotalPages(n: nat): (t: nat)
    ensures t * ItemsPerPage >= n
    ensures t > 0 ==> (t - 1) * ItemsPerPage < n
    ensures n == 0 <==> t == 0
  {
    (n + ItemsPerPage - 1) / ItemsPerPage
  }

  function Min(a: int, b: int): int { if a <= b then a else b }

  /** Page `p` (from 1) is the slice from `(p-1)*10` to `p*10`, cut at the end of the list. */
  lemma PageIsWindow<T>(s: seq<T>, p: nat)
    requires p >= 1
    ensures Min((p - 1) * ItemsPerPage, |s|) <= Min(p * ItemsPerPage, |s|)
    ensures PageOf(s, p) == s[Min((p - 1) * ItemsPerPage, |s|)..Min(p * ItemsPerPage, |s|)]
  {
  }

  /** The pages from 1 to `k`, one after the other. */
  function PagesUpTo<T>(s: seq<T>, k: nat): seq<T>
    decreases k
  {
    if k == 0 then [] else PagesUpTo(s, k - 1) + PageOf(s, k)
  }

  lemma {:induction false} PagesUpToIsPrefix<T>(s: seq<T>, k: nat)
    ensures PagesUpTo(s, k) == s[..Min(k * ItemsPerPage, |s|)]
    decreases k
  {
    if k > 0 {
      PagesUpToIsPrefix(s, k - 1);
      PageIsWindow(s, k);
      var a := Min((k - 1) * ItemsPerPage, |s|);
      var b := Min(k * ItemsPerPage, |s|);
      assert s[..a] + s[a..b] == s[..b];
    }
  }

  /** Pages 1 to `totalPages`, concatenated, are the whole filtered list. */
  lemma PagesCoverList<T>(s: seq<T>)
    ensures PagesUpTo(s, TotalPages(|s|)) == s
  {
    PagesUpToIsPrefix(s, TotalPages(|s|));
  }

  /** A page past the last one is empty. */
  lemma PageBeyondLastIsEmpty<T>(s: seq<T>, p: nat)
    requires p > TotalPages(|s|)
    ensures PageOf(s, p) == []
  {
    PageIsWindow(s, p);
  }

  // ---------------------------------------------------------------- CSV export

  /** `m.replace(/"/g, '""')`: every double quote doubled. */
  function DoubleQuotes(m: string): (r: string)
    ensures |r| >= |m|
    ensures '"' !in m ==> r == m
    decreases |m|
  {
    if m == [] then []
    else (if m[0] == '"' then "\"\"" else [m[0]]) + DoubleQuotes(m[1..])
  }

  /** Reading a quoted field's inside back: a doubled quote stands for one quote. */
  function UndoubleQuotes(r: string): string
    decreases |r|
  {
    if |r| >= 2 && r[0] == '"' && r[1] == '"' then "\"" + UndoubleQuotes(r[2..])
    else if r == [] then []
    else [r[0]] + UndoubleQuotes(r[1..])
  }

  /** Doubling the quotes loses nothing: the message is recovered from the field (section 2, rule 7 of RFC 4180). */
  lemma {:induction false} UndoubleDoubleQuotes(m: string)
    ensures UndoubleQuotes(DoubleQuotes(m)) == m
    decreases |m|
  {
    if m != [] {
      UndoubleDoubleQuotes(m[1..]);
      var rest := DoubleQuotes(m[1..]);
      if m[0] == '"' {
        assert DoubleQuotes(m) == "\"\"" + rest;
        assert ("\"\"" + rest)[2..] == rest;
      } else {
        assert DoubleQuotes(m) == [m[0]] + rest;
        assert ([m[0]] + rest)[1..] == rest;
      }
      assert [m[0]] + m[1..] == m;
    }
  }

  /** The message column: the doubled message between double quotes. */
  function QuoteField(m: string): (r: string)
    ensures |r| >= 2 && r[0] == '"' && r[|r| - 1] == '"'
    ensures UndoubleQuotes(r[1..|r| - 1]) == m
  {
    UndoubleDoubleQuotes(m);
    var r := "\"" + DoubleQuotes(m) + "\"";
    assert r[1..|r| - 1] == DoubleQuotes(m);
    r
  }

  const CsvColumns: seq<string> := ["ID", "Student Name", "Course Name", "Rating", "Message", "Date"]

  /** The header line: the six column names joined by commas. */
  const CsvHeader := Text.Join(CsvColumns, ",")

  /**
   * The six fields of one record's row. The date is `new Date(createdAt).toISOString()`,
   * supplied by `isoDate`; the rating is rendered with `String`.
   */
  function RowFields(f: Feedback, isoDate: int -> string): (fields: seq<string>)
    ensures |fields| == |CsvColumns| && fields[4] == QuoteField(f.message)
    ensures fields[0] == f.id && fields[1] == f.studentName && fields[2] == f.courseName
    ensures fields[3] == Text.IntToString(f.rating) && fields[5] == isoDate(f.createdAt)
  {
    [f.id, f.studentName, f.courseName, Text.IntToString(f.rating), QuoteField(f.message), isoDate(f.createdAt)]
  }

  /** The rating column reads back as the record's rating. */
  lemma RatingFieldParses(f: Feedback, isoDate: int -> string)
    ensures Text.ParseInt(RowFields(f, isoDate)[3]) == Some(f.rating)
  {
    Text.ParseIntOfIntToString(f.rating);
  }

  function CsvRow(f: Feedback, isoDate: int -> string): string {
    Text.Join(RowFields(f, isoDate), ",")
  }

  function CsvRows(fs: seq<Feedback>, isoDate: int -> string): (rows: seq<string>)
    ensures |rows| == |fs|
    ensures forall k :: 0 <= k < |fs| ==> rows[k] == CsvRow(fs[k], isoDate)
  {
    seq(|fs|, k requires 0 <= k < |fs| => CsvRow(fs[k], isoDate))
  }

  /** The file's text: the header line, then one line per filtered record, joined by `\n`. */
  function CsvContent(fs: seq<Feedback>, isoDate: int -> string): (r: string)
    ensures Text.IsPrefix(CsvHeader, r)
    ensures fs == [] ==> r == CsvHeader
    ensures fs != [] ==> |r| > |CsvHeader| && r[|CsvHeader|] == '\n'
  {
    var rows := CsvRows(fs, isoDate);
    var lines := [CsvHeader] + rows;
    assert lines[0] == CsvHeader && lines[1..] == rows;
    Text.Join(lines, "\n")
  }

  const CsvUriPrefix := "data:text/csv;charset=utf-8,"

  /** The `href` handed to the browser (before `encodeURI`): the prefix, then exactly the file's text. */
  function CsvDataUri(fs: seq<Feedback>, isoDate: int -> string): (r: string)
    ensures Text.IsPrefix(CsvUriPrefix, r)
    ensures r[|CsvUriPrefix|..] == CsvContent(fs, isoDate)
  {
    CsvUriPrefix + CsvContent(fs, isoDate)
  }

  /** No line break in any field of a record's row. */
  ghost predicate NoLineBreak(f: Feedback, isoDate: int -> string) {
    forall k :: 0 <= k < |RowFields(f, isoDate)| ==> '\n' !in RowFields(f, isoDate)[k]
  }

  /** The header holds no line break. */
  lemma HeaderIsOneLine()
    ensures '\n' !in CsvHeader
  {
    var cols := CsvColumns;
    assert forall k :: 0 <= k < |cols| ==> '\n' !in cols[k];
    Text.JoinAvoids(cols, ",", '\n');
  }

  /**
   * When no field holds a line break, the file splits back into the header and
   * the rows: exactly one line per record plus the header.
   */
  lemma CsvLines(fs: seq<Feedback>, isoDate: int -> string)
    requires forall k :: 0 <= k < |fs| ==> NoLineBreak(fs[k], isoDate)
    ensures Text.Split(CsvContent(fs, isoDate), '\n') == [CsvHeader] + CsvRows(fs, isoDate)
    ensures |Text.Split(CsvContent(fs, isoDate), '\n')| == |fs| + 1
  {
    var rows := CsvRows(fs, isoDate);
    HeaderIsOneLine();
    RowsAreLineFree(fs, isoDate);
    var lines := [CsvHeader] + rows;
    assert forall k :: 1 <= k < |lines| ==> lines[k] == rows[k - 1];
    Text.SplitJoin(lines, '\n');
  }

  /** No row holds a line break. */
  lemma RowsAreLineFree(fs: seq<Feedback>, isoDate: int -> string)
    requires forall k :: 0 <= k < |fs| ==> NoLineBreak(fs[k], isoDate)
    ensures forall k :: 0 <= k < |fs| ==> '\n' !in CsvRows(fs, isoDate)[k]
  {
    forall k | 0 <= k < |fs| ensures '\n' !in CsvRows(fs, isoDate)[k] {
      RowIsOneLine(fs[k], isoDate);
    }
  }

  /** A record whose fields hold no line break gives a row without one. */
  lemma RowIsOneLine(f: Feedback, isoDate: int -> string)
    requires NoLineBreak(f, isoDate)
    ensures '\n' !in CsvRow(f, isoDate)
  {
    Text.JoinAvoids(RowFields(f, isoDate), ",", '\n');
  }

  // ---------------------------------------------------------------- selection

  function WithoutId(ids: seq<string>, id: string): (r: seq<string>)
    ensures forall x :: x in r <==> x in ids && x != id
  {
    Seqs.Filter(ids, (x: string) => x != id)
  }

  /** `handleSelectFeedback`'s update: remove the id when selected, otherwise append it. */
  function Toggle(selected: seq<string>, id: string): (r: seq<string>)
    ensures id in selected ==> id !in r && forall x :: x in r <==> x in selected && x != id
    ensures id !in selected ==> r == selected + [id]
  {
    if id in selected then WithoutId(selected, id) else selected + [id]
  }

  /** Toggling the same id twice gives back the same selection, as a set. */
  lemma ToggleTwice(selected: seq<string>, id: string)
    ensures forall x :: x in Toggle(Toggle(selected, id), id) <==> x in selected
  {
  }

  /** Toggling never touches the other ids. */
  lemma ToggleKeepsOthers(selected: seq<string>, id: string, other: string)
    requires other != id
    ensures other in Toggle(selected, id) <==> other in selected
  {
  }

  /** The records whose id is selected, in list order. */
  function SelectedRecords(all: seq<Feedback>, selected: seq<string>): (r: seq<Feedback>)
    ensures forall f :: f in r <==> f in all && f.id in selected
    ensures Seqs.IsSubsequence(r, all)
    ensures forall f: Feedback :: f.id in selected ==> multiset(r)[f] == multiset(all)[f]
    ensures |r| <= |all|
  {
    Seqs.FilterShrinks(all, IsSelected(selected));
    forall f: Feedback | f.id in selected
      ensures multiset(Seqs.Filter(all, IsSelected(selected)))[f] == multiset(all)[f]
    {
      Seqs.FilterMultiplicity(all, IsSelected(selected), f);
    }
    Seqs.Filter(all, IsSelected(selected))
  }

  /** The test of `selectedFeedback.includes(f.id)`. */
  function IsSelected(selected: seq<string>): Feedback -> bool {
    (f: Feedback) => f.id in selected
  }

  /** The messages `handleSummarize` sends: those of the selected records, in `allFeedback` order. */
  function MessagesToSummarize(all: seq<Feedback>, selected: seq<string>): (r: seq<string>)
    ensures |r| <= |all|
    ensures r == [] <==> forall k :: 0 <= k < |all| ==> all[k].id !in selected
    ensures |r| == |SelectedRecords(all, selected)|
    ensures forall k :: 0 <= k < |r| ==> r[k] == SelectedRecords(all, selected)[k].message
  {
    var chosen := SelectedRecords(all, selected);
    assert chosen == [] <==> forall k :: 0 <= k < |all| ==> all[k].id !in selected by {
      if chosen != [] {
        assert chosen[0] in chosen;
      }
      forall k | 0 <= k < |all| && all[k].id in selected ensures chosen != [] {
        assert all[k] in chosen;
      }
    }
    Messages(chosen)
  }

  /** `.map(f => f.message)`. */
  function Messages(fs: seq<Feedback>): (r: seq<string>)
    ensures |r| == |fs|
    ensures forall k :: 0 <= k < |r| ==> r[k] == fs[k].message
  {
    seq(|fs|, k requires 0 <= k < |fs| => fs[k].message)
  }

  /** Mapping to messages distributes over concatenation. */
  lemma MessagesOfAppend(a: seq<Feedback>, b: seq<Feedback>)
    ensures Messages(a + b) == Messages(a) + Messages(b)
  {
    assert forall k :: 0 <= k < |a + b| ==> Messages(a + b)[k] == (Messages(a) + Messages(b))[k];
  }

  /** The message of every selected record is sent, and nothing else is. */
  lemma SummarizeSendsSelected(all: seq<Feedback>, selected: seq<string>)
    ensures forall k :: 0 <= k < |all| && all[k].id in selected ==> all[k].message in MessagesToSummarize(all, selected)
    ensures forall m :: m in MessagesToSummarize(all, selected) ==>
      exists k :: 0 <= k < |all| && all[k].id in selected && all[k].message == m
  {
    var chosen := SelectedRecords(all, selected);
    var r := MessagesToSummarize(all, selected);
    forall k | 0 <= k < |all| && all[k].id in selected ensures all[k].message in r {
      assert all[k] in chosen;
      var j :| 0 <= j < |chosen| && chosen[j] == all[k];
      assert r[j] == all[k].message;
    }
    forall m | m in r ensures exists k :: 0 <= k < |all| && all[k].id in selected && all[k].message == m {
      var j :| 0 <= j < |r| && r[j] == m;
      assert chosen[j] in all;
      var k :| 0 <= k < |all| && all[k] == chosen[j];
      assert all[k].message == m;
    }
  }

  /**
   * The messages go out in `allFeedback` order: a list's messages are its
   * head's message, when the head is selected, followed by the rest's.
   */
  lemma MessagesInListOrder(f: Feedback, rest: seq<Feedback>, selected: seq<string>)
    ensures MessagesToSummarize([f] + rest, selected) ==
      (if f.id in selected then [f.message] else []) + MessagesToSummarize(rest, selected)
  {
    var head: seq<Feedback> := if f.id in selected then [f] else [];
    var tail := SelectedRecords(rest, selected);
    SelectedRecordsCons(f, rest, selected);
    assert MessagesToSummarize([f] + rest, selected) == Messages(head + tail);
    assert MessagesToSummarize(rest, selected) == Messages(tail);
    MessagesOfAppend(head, tail);
    assert Messages(head) == if f.id in selected then [f.message] else [];
  }

  /** The selected records of a list: its head when selected, then those of the rest. */
  lemma SelectedRecordsCons(f: Feedback, rest: seq<Feedback>, selected: seq<string>)
    ensures SelectedRecords([f] + rest, selected) ==
      (if f.id in selected then [f] else []) + SelectedRecords(rest, selected)
  {
    var all := [f] + rest;
    assert all[0] == f && all[1..] == rest;
    assert Seqs.Filter(all, IsSelected(selected)) ==
      (if f.id in selected then [f] else []) + Seqs.Filter(rest, IsSelected(selected));
  }

  /** Two selected records' messages are sent in the order of the records. */
  lemma TwoSelectedInOrder(a: Feedback, b: Feedback, selected: seq<string>)
    requires a.id in selected && b.id in selected
    ensures MessagesToSummarize([a, b], selected) == [a.message, b.message]
  {
    var none: seq<Feedback> := [];
    MessagesInListOrder(b, none, selected);
    assert [b] + none == [b];
    assert MessagesToSummarize(none, selected) == [];
    assert MessagesToSummarize([b], selected) == [b.message];
    assert [a, b] == [a] + [b];
    MessagesInListOrder(a, [b], selected);
  }

  const SummaryFailure := "Failed to generate summary."

  /** The page's selection and summary state. */
  class FeedbackReview {
    var selected: seq<string>
    var summary: string
    var isSummarizing: bool

    constructor ()
      ensures selected == [] && summary == "" && !isSummarizing
    {
      selected := [];
      summary := "";
      isSummarizing := false;
    }

    /** `handleSelectFeedback`. */
    method SelectFeedback(id: string)
      modifies this
      ensures selected == Toggle(old(selected), id)
      ensures summary == old(summary) && isSummarizing == old(isSummarizing)
    {
      selected := Toggle(selected, id);
    }

    /** The header checkbox: select every record of the current page, or clear the selection. */
    method SelectPage(checked: bool, page: seq<Feedback>)
      modifies this
      ensures checked ==> |selected| == |page| && forall k :: 0 <= k < |page| ==> selected[k] == page[k].id
      ensures !checked ==> selected == []
      ensures summary == old(summary) && isSummarizing == old(isSummarizing)
    {
      if checked {
        selected := seq(|page|, k requires 0 <= k < |page| => page[k].id);
      } else {
        selected := [];
      }
    }

    /**
     * `handleSummarize`. With nothing selected in `allFeedback` there is only
     * an alert and no request (`requested` is false). Otherwise the summary
     * is the service's `reply` for the messages, or the failure text when the
     * call throws (`reply == None`).
     */
    method HandleSummarize(all: seq<Feedback>, reply: Option<string>) returns (requested: bool)
      modifies this
      ensures requested <==> MessagesToSummarize(all, selected) != []
      ensures selected == old(selected)
      ensures !requested ==> summary == old(summary) && isSummarizing == old(isSummarizing)
      ensures requested ==> !isSummarizing && summary == reply.GetOr(SummaryFailure)
    {
      var messages := MessagesToSummarize(all, selected);
      if |messages| == 0 {
        return false;
      }
      isSummarizing := true;
      summary := "";
      if reply.Some? {
        summary := reply.value;
      } else {
        summary := SummaryFailure;
      }
      isSummarizing := false;
      requested := true;
    }
  }
}
