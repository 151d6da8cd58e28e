/**
  Document assembly for the sticker-label generator.

  For every input record the generator builds seven label tables and appends
  them to one flat element list ("the story" handed to the PDF builder); a
  page-break marker follows every record's tables except the last record's.
  The tables themselves are opaque here: a table is a token naming which of
  the seven label rows it is and which record it was built from.
 */
module Pagination {

  /** The seven label tables, one per row of the sticker. */
  datatype TableKind = Assly | PartNo | Desc | Qty | Type | Date | Bottom

  /** One entry of the document story: a table built from a record, or a page break. */
  datatype Element<R> = Table(kind: TableKind, row: R) | PageBreak

  /** Number of entries a record contributes to the story when a page break follows it. */
  const GroupSize: nat := 8

  /** The tables built for one record, in the order they are extended onto the record's elements. */
  function LabelTables<R>(row: R): (ts: seq<Element<R>>)
    ensures |ts| == 7
    ensures PageBreak !in ts
  {
    [Table(Assly, row), Table(PartNo, row), Table(Desc, row), Table(Qty, row),
     Table(Type, row), Table(Date, row), Table(Bottom, row)]
  }

  /** What one loop iteration appends: the record's tables, then a page break unless it is the last record. */
  function Group<R>(records: seq<R>, index: nat): (appended: seq<Element<R>>)
    requires index < |records|
  {
    LabelTables(records[index]) + if index < |records| - 1 then [PageBreak] else []
  }

  /** The story after the first `i` iterations of the loop. */
  function Assembled<R>(records: seq<R>, i: nat): (story: seq<Element<R>>)
    requires i <= |records|
  {
    if i == 0 then [] else Assembled(records, i - 1) + Group(records, i - 1)
  }

  /** The complete story for a list of records. */
  function Document<R>(records: seq<R>): (story: seq<Element<R>>)
  {
    Assembled(records, |records|)
  }

  /**
    The assembly loop: each record's tables are gathered into `elements`, which
    is appended to `allElements`, followed by a page break when `index` is not
    the last index.
   */
  method AssembleDocument<R>(records: seq<R>) returns (allElements: seq<Element<R>>)
    ensures allElements == Document(records)
  {
    allElements := [];
    var index := 0;
    while index < |records|
      invariant 0 <= index <= |records|
      invariant allElements == Assembled(records, index)
    {
      var row := records[index];
      var elements := [];
      elements := elements + LabelTables(row);
      allElements := allElements + elements;
      if index < |records| - 1 {
        allElements := allElements + [PageBreak];
      }
      index := index + 1;
    }
  }

  /** Length of the partial story: eight entries per finished record, one fewer once the last record is in. */
  lemma {:induction false} AssembledLength<R>(records: seq<R>, i: nat)
    requires i <= |records|
    ensures |Assembled(records, i)| == if i == |records| && i > 0 then GroupSize * i - 1 else GroupSize * i
  {
    if i > 0 {
      AssembledLength(records, i - 1);
    }
  }

  /** For N records the story holds 8N - 1 entries (none when there are no records). */
  lemma DocumentLength<R>(records: seq<R>)
    ensures |Document(records)| == if |records| == 0 then 0 else GroupSize * |records| - 1
  {
    AssembledLength(records, |records|);
  }

  /**
    Position by position: entry `GroupSize * index + k` of the partial story is
    the k-th table of record `index` for k < 7, and a page break for k == 7.
   */
  lemma {:induction false} AssembledAt<R>(records: seq<R>, i: nat, index: nat, k: nat)
    requires i <= |records|
    requires index < i && k < GroupSize
    requires k == GroupSize - 1 ==> index < |records| - 1
    ensures GroupSize * index + k < |Assembled(records, i)|
    ensures Assembled(records, i)[GroupSize * index + k]
            == if k < 7 then LabelTables(records[index])[k] else PageBreak
  {
    AssembledLength(records, i - 1);
    if index < i - 1 {
      AssembledAt(records, i - 1, index, k);
    } else {
      assert Assembled(records, i) == Assembled(records, i - 1) + Group(records, index);
    }
  }

  /**
    The story is exactly the records' tables in input order, with a page break after
    every record but the last: entry `8 * index + k` is record `index`'s k-th table
    (k < 7) or a page break (k == 7, only when `index` is not the last record).
   */
  lemma DocumentAt<R>(records: seq<R>, index: nat, k: nat)
    requires index < |records| && k < GroupSize
    requires k == GroupSize - 1 ==> index < |records| - 1
    ensures GroupSize * index + k < |Document(records)|
    ensures Document(records)[GroupSize * index + k]
            == if k < 7 then LabelTables(records[index])[k] else PageBreak
  {
    AssembledAt(records, |records|, index, k);
  }

  /** Every position of the story is covered by `DocumentAt`: page breaks sit exactly at positions 7 mod 8. */
  lemma DocumentEntry<R>(records: seq<R>, p: nat)
    requires p < |Document(records)|
    ensures p / GroupSize < |records|
    ensures Document(records)[p] == PageBreak <==> p % GroupSize == GroupSize - 1
    ensures p % GroupSize < 7 ==> Document(records)[p] == LabelTables(records[p / GroupSize])[p % GroupSize]
  {
    DocumentLength(records);
    var index, k := p / GroupSize, p % GroupSize;
    assert p == GroupSize * index + k;
    DocumentAt(records, index, k);
  }

  /** No page break trails the story: it ends with the last record's bottom table. */
  lemma LastEntryIsBottomTable<R>(records: seq<R>)
    requires |records| > 0
    ensures |Document(records)| > 0
    ensures Document(records)[|Document(records)| - 1] == Table(Bottom, records[|records| - 1])
  {
    DocumentLength(records);
    DocumentAt(records, |records| - 1, 6);
  }

  /** Number of page-break markers in a story. */
  function PageBreaks<R>(story: seq<Element<R>>): (count: nat)
  {
    if story == [] then 0
    else PageBreaks(story[..|story| - 1]) + if story[|story| - 1] == PageBreak then 1 else 0
  }

  /** Page breaks of a concatenation add up. */
  lemma {:induction false} PageBreaksConcat<R>(a: seq<Element<R>>, b: seq<Element<R>>)
    ensures PageBreaks(a + b) == PageBreaks(a) + PageBreaks(b)
  {
    if b == [] {
      assert a + b == a;
    } else {
      PageBreaksConcat(a, b[..|b| - 1]);
      assert (a + b)[..|a + b| - 1] == a + b[..|b| - 1];
    }
  }

  /** A story without a page-break marker counts none. */
  lemma {:induction false} NoPageBreaks<R>(story: seq<Element<R>>)
    requires PageBreak !in story
    ensures PageBreaks(story) == 0
  {
    if story != [] {
      assert PageBreak !in story[..|story| - 1] by {
        assert forall e :: e in story[..|story| - 1] ==> e in story;
      }
      NoPageBreaks(story[..|story| - 1]);
    }
  }

  /** Counts the page breaks of a partial story: one per finished record except the last record. */
  lemma {:induction false} AssembledPageBreaks<R>(records: seq<R>, i: nat)
    requires i <= |records|
    ensures PageBreaks(Assembled(records, i)) == if i == |records| && i > 0 then i - 1 else i
  {
    if i > 0 {
      AssembledPageBreaks(records, i - 1);
      var prior, ts := Assembled(records, i - 1), LabelTables(records[i - 1]);
      var tail: seq<Element<R>> := if i < |records| then [PageBreak] else [];
      assert Assembled(records, i) == prior + (ts + tail);
      PageBreaksConcat(prior, ts + tail);
      PageBreaksConcat(ts, tail);
      NoPageBreaks(ts);
      assert PageBreaks(tail) == if i < |records| then 1 else 0;
    }
  }

  /** N records give exactly N - 1 page breaks, and 7N tables. */
  lemma PageBreakCount<R>(records: seq<R>)
    ensures PageBreaks(Document(records)) == if |records| == 0 then 0 else |records| - 1
    ensures |Document(records)| - PageBreaks(Document(records)) == 7 * |records|
  {
    AssembledPageBreaks(records, |records|);
    DocumentLength(records);
  }

  /** Append-only: the story after i iterations is a prefix of the story after any later iteration. */
  lemma {:induction false} AssembledPrefix<R>(records: seq<R>, i: nat, j: nat)
    requires i <= j <= |records|
    ensures Assembled(records, i) <= Assembled(records, j)
  {
    if i < j {
      AssembledPrefix(records, i, j - 1);
    }
  }

  /** Appending one more record keeps the old story and adds a page break and the new record's tables. */
  lemma DocumentSnoc<R>(records: seq<R>, row: R)
    requires |records| > 0
    ensures Document(records + [row]) == Document(records) + [PageBreak] + LabelTables(row)
  {
    var more := records + [row];
    forall i: nat | i <= |records|
      ensures Assembled(more, i) == Assembled(records, i) + if i == |records| then [PageBreak] else []
    {
      AssembledExtended(records, row, i);
    }
    assert more[|records|] == row;
  }

  /** Helper for `DocumentSnoc`: the loop over `records + [row]` agrees with the loop over `records` up to the old last record. */
  lemma {:induction false} AssembledExtended<R>(records: seq<R>, row: R, i: nat)
    requires 0 < |records| && i <= |records|
    ensures Assembled(records + [row], i) == Assembled(records, i) + if i == |records| then [PageBreak] else []
  {
    var more := records + [row];
    if i > 0 {
      AssembledExtended(records, row, i - 1);
      assert more[i - 1] == records[i - 1];
      if i == |records| {
        assert Group(more, i - 1) == Group(records, i - 1) + [PageBreak];
      } else {
        assert Group(more, i - 1) == Group(records, i - 1);
      }
    }
  }

  /** The pages with `ts` added at the end of the last page. */
  function ExtendLastPage<R>(pages: seq<seq<Element<R>>>, ts: seq<Element<R>>): (extended: seq<seq<Element<R>>>)
    requires |pages| >= 1
    ensures |extended| == |pages|
    ensures forall j :: 0 <= j < |pages| - 1 ==> extended[j] == pages[j]
    ensures extended[|pages| - 1] == pages[|pages| - 1] + ts
  {
    pages[..|pages| - 1] + [pages[|pages| - 1] + ts]
  }

  /**
    The story split at its page-break markers: the runs of entries between
    consecutive markers. A story always splits into at least one run. Pages that
    the PDF builder adds on its own when content overflows the frame are not
    part of this split.
   */
  function Pages<R>(story: seq<Element<R>>): (pages: seq<seq<Element<R>>>)
    ensures |pages| >= 1
  {
    if story == [] then [[]]
    else
      var last := story[|story| - 1];
      if last == PageBreak then Pages(story[..|story| - 1]) + [[]]
      else ExtendLastPage(Pages(story[..|story| - 1]), [last])
  }

  /** Adding entries to the last page twice is adding their concatenation once. */
  lemma ExtendLastPageTwice<R>(pages: seq<seq<Element<R>>>, a: seq<Element<R>>, b: seq<Element<R>>)
    requires |pages| >= 1
    ensures ExtendLastPage(ExtendLastPage(pages, a), b) == ExtendLastPage(pages, a + b)
  {
    assert pages[|pages| - 1] + a + b == pages[|pages| - 1] + (a + b);
  }

  /** Entries without a page break extend the current (last) page. */
  lemma {:induction false} PagesAppendTables<R>(story: seq<Element<R>>, ts: seq<Element<R>>)
    requires PageBreak !in ts
    ensures Pages(story + ts) == ExtendLastPage(Pages(story), ts)
  {
    if ts == [] {
      var before := Pages(story);
      assert story + ts == story;
      assert before[|before| - 1] + ts == before[|before| - 1];
    } else {
      var init, x := ts[..|ts| - 1], ts[|ts| - 1];
      assert init + [x] == ts;
      assert PageBreak !in init by {
        assert forall e :: e in init ==> e in ts;
      }
      PagesAppendTables(story, init);
      assert (story + ts)[..|story + ts| - 1] == story + init;
      assert Pages(story + ts) == ExtendLastPage(Pages(story + init), [x]);
      ExtendLastPageTwice(Pages(story), init, [x]);
    }
  }

  /** A page break after the entries opens a new, empty page. */
  lemma PagesAppendBreak<R>(story: seq<Element<R>>)
    ensures Pages(story + [PageBreak]) == Pages(story) + [[]]
  {
    assert (story + [PageBreak])[..|story|] == story;
  }

  /** The label groups of the first `i` records, one seven-table group per record, in input order. */
  function Labels<R>(records: seq<R>, i: nat): (groups: seq<seq<Element<R>>>)
    requires i <= |records|
  {
    if i == 0 then [] else Labels(records, i - 1) + [LabelTables(records[i - 1])]
  }

  /** Group j of `Labels` is record j's tables. */
  lemma {:induction false} LabelsAt<R>(records: seq<R>, i: nat, j: nat)
    requires j < i <= |records|
    ensures |Labels(records, i)| == i
    ensures Labels(records, i)[j] == LabelTables(records[j])
  {
    if j < i - 1 {
      LabelsAt(records, i - 1, j);
    } else if i > 1 {
      LabelsAt(records, i - 1, 0);
    }
  }

  /** One loop iteration, spelled out: the record's tables, then the page break if one is due. */
  lemma AssembledStep<R>(records: seq<R>, i: nat)
    requires 0 < i <= |records|
    ensures Assembled(records, i)
            == (Assembled(records, i - 1) + LabelTables(records[i - 1])) + if i < |records| then [PageBreak] else []
  {
  }

  /** Filling the empty last run with `ts` turns it into a run of its own. */
  lemma ExtendEmptyLastPage<R>(before: seq<seq<Element<R>>>, ts: seq<Element<R>>)
    ensures ExtendLastPage(before + [[]], ts) == before + [ts]
  {
    assert (before + [[]])[..|before|] == before;
    assert (before + [[]])[|before|] + ts == ts;
  }

  /** Entries without a page break, added after a story that ends in an empty run, fill that run. */
  lemma PagesFillEmptyRun<R>(prior: seq<Element<R>>, before: seq<seq<Element<R>>>, ts: seq<Element<R>>)
    requires Pages(prior) == before + [[]]
    requires PageBreak !in ts
    ensures Pages(prior + ts) == before + [ts]
  {
    PagesAppendTables(prior, ts);
    ExtendEmptyLastPage(before, ts);
  }

  /** Runs of the partial story just after record `i - 1`'s tables: one run per record so far. */
  lemma {:induction false} PagesAfterTables<R>(records: seq<R>, i: nat)
    requires 0 < i <= |records|
    ensures Pages(Assembled(records, i - 1) + LabelTables(records[i - 1])) == Labels(records, i)
    decreases i, 0
  {
    if i == 1 {
      PagesFirstRecord(records);
    } else {
      AssembledPages(records, i - 1);
      PagesFillEmptyRun(Assembled(records, i - 1), Labels(records, i - 1), LabelTables(records[i - 1]));
    }
  }

  /** The first record's tables make the first run. */
  lemma PagesFirstRecord<R>(records: seq<R>)
    requires 0 < |records|
    ensures Pages(Assembled(records, 0) + LabelTables(records[0])) == Labels(records, 1)
  {
    PagesFillEmptyRun([], [], LabelTables(records[0]));
    assert Assembled(records, 0) + LabelTables(records[0]) == [] + LabelTables(records[0]);
  }

  /** Runs of the partial story: one per finished record, plus the empty run opened by the last break. */
  lemma {:induction false} AssembledPages<R>(records: seq<R>, i: nat)
    requires 0 < i <= |records|
    ensures Pages(Assembled(records, i)) == Labels(records, i) + if i < |records| then [[]] else []
    decreases i, 1
  {
    var done := Assembled(records, i - 1) + LabelTables(records[i - 1]);
    PagesAfterTables(records, i);
    AssembledStep(records, i);
    if i < |records| {
      PagesAppendBreak(done);
    } else {
      assert done + [] == done;
    }
  }

  /**
    N >= 1 records split at the page-break markers into exactly N runs, run j
    holding exactly record j's seven tables, in input order. (No records give one
    empty run.)
   */
  lemma DocumentPages<R>(records: seq<R>)
    requires |records| > 0
    ensures |Pages(Document(records))| == |records|
    ensures forall j :: 0 <= j < |records| ==> Pages(Document(records))[j] == LabelTables(records[j])
  {
    AssembledPages(records, |records|);
    LabelsAt(records, |records|, 0);
    forall j | 0 <= j < |records|
      ensures Pages(Document(records))[j] == LabelTables(records[j])
    {
      LabelsAt(records, |records|, j);
    }
  }
}
