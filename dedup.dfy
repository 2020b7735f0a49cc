/** The two deduplication stages: the title check that gates every append while the
    pages are collected (film_scraper.py:71-83), and the final reduction of `data` to
    distinct records through a set of frozensets (film_scraper.py:91). */
module Dedup {
  import opened Extractor

  /** The titles occurring in `rs`. */
  function Titles(rs: seq<Record>): set<string> {
    set r | r in rs :: r.title
  }

  /** No two records of `rs` share a title. */
  ghost predicate DistinctTitles(rs: seq<Record>) {
    forall i, j :: 0 <= i < j < |rs| ==> rs[i].title != rs[j].title
  }

  /** No two records of `rs` are equal in all five fields. */
  ghost predicate NoDuplicates(rs: seq<Record>) {
    forall i, j :: 0 <= i < j < |rs| ==> rs[i] != rs[j]
  }

  /** `rs[i]` is the earliest record of `rs` with its title. */
  ghost predicate FirstOfTitle(rs: seq<Record>, i: int)
    requires 0 <= i < |rs|
  {
    forall j :: 0 <= j < i ==> rs[j].title != rs[i].title
  }

  lemma TitlesSnoc(rs: seq<Record>, r: Record)
    ensures Titles(rs + [r]) == Titles(rs) + {r.title}
  {
  }

  /** Stage 1 applied to the whole stream of extracted records, in order: a record is
      appended only when no earlier appended record has its title. */
  function KeepFirstByTitle(rs: seq<Record>): seq<Record> {
    if rs == [] then []
    else
      var prev := KeepFirstByTitle(rs[..|rs| - 1]);
      var r := rs[|rs| - 1];
      if r.title in Titles(prev) then prev else prev + [r]
  }

  /** The stage-1 invariants: the collected titles are pairwise distinct and the set
      of seen titles is the set of titles of every item offered so far. */
  lemma {:induction false} KeepFirstInvariant(rs: seq<Record>)
    ensures DistinctTitles(KeepFirstByTitle(rs))
    ensures Titles(KeepFirstByTitle(rs)) == Titles(rs)
  {
    if rs != [] {
      var prefix := rs[..|rs| - 1];
      var r := rs[|rs| - 1];
      var prev := KeepFirstByTitle(prefix);
      assert rs == prefix + [r];
      KeepFirstInvariant(prefix);
      TitlesSnoc(prefix, r);
      TitlesSnoc(prev, r);
      if r.title !in Titles(prev) {
        forall i | 0 <= i < |prev| ensures prev[i].title != r.title {
          assert prev[i] in prev;
        }
      }
    }
  }

  /** An item whose title has already been seen leaves the collected list unchanged. */
  lemma SeenTitleSkipped(rs: seq<Record>, r: Record)
    requires r.title in Titles(rs)
    ensures KeepFirstByTitle(rs + [r]) == KeepFirstByTitle(rs)
  {
    assert (rs + [r])[..|rs|] == rs;
    KeepFirstInvariant(rs);
  }

  /** An item with a new title is appended, after everything collected before it. */
  lemma NewTitleAppended(rs: seq<Record>, r: Record)
    requires r.title !in Titles(rs)
    ensures KeepFirstByTitle(rs + [r]) == KeepFirstByTitle(rs) + [r]
  {
    assert (rs + [r])[..|rs|] == rs;
    KeepFirstInvariant(rs);
  }

  /** First occurrence wins: a record is kept exactly when it is, somewhere in the
      stream, the earliest record carrying its title. */
  lemma {:induction false} KeepFirstMembers(rs: seq<Record>, x: Record)
    ensures x in KeepFirstByTitle(rs) <==>
      exists i :: 0 <= i < |rs| && rs[i] == x && FirstOfTitle(rs, i)
  {
    if rs != [] {
      var n := |rs| - 1;
      var prefix, r := rs[..n], rs[n];
      assert rs == prefix + [r];
      KeepFirstMembers(prefix, x);
      KeepFirstInvariant(prefix);
      forall i | 0 <= i < n ensures FirstOfTitle(rs, i) == FirstOfTitle(prefix, i) {
      }
      // `r` comes first for its title exactly when no earlier record has that title.
      assert FirstOfTitle(rs, n) <==> r.title !in Titles(prefix) by {
        if !FirstOfTitle(rs, n) {
          var j :| 0 <= j < n && rs[j].title == r.title;
          assert prefix[j] in prefix;
        }
        if r.title in Titles(prefix) {
          var y :| y in prefix && y.title == r.title;
          var j :| 0 <= j < n && prefix[j] == y;
          assert rs[j].title == r.title;
        }
      }
      if x in KeepFirstByTitle(rs) && x != r {
        assert x in KeepFirstByTitle(prefix);
      }
    }
  }

  /** Records sharing a title, e.g. every film card whose title node is missing, are all
      dropped but the earliest, whatever their other fields hold. */
  lemma FirstWins(rs: seq<Record>, i: int, j: int)
    requires 0 <= i < j < |rs| && FirstOfTitle(rs, i)
    requires rs[j].title == rs[i].title
    ensures rs[i] in KeepFirstByTitle(rs)
    ensures forall y :: y in KeepFirstByTitle(rs) && y.title == rs[j].title ==> y == rs[i]
  {
    KeepFirstMembers(rs, rs[i]);
    KeepFirstInvariant(rs);
    var kept := KeepFirstByTitle(rs);
    forall y | y in kept && y.title == rs[j].title ensures y == rs[i] {
      var a :| 0 <= a < |kept| && kept[a] == y;
      var b :| 0 <= b < |kept| && kept[b] == rs[i];
      assert a == b;
    }
  }

  /** A list of records with distinct titles has as many records as titles. */
  lemma {:induction false} DistinctTitlesCount(rs: seq<Record>)
    requires DistinctTitles(rs)
    ensures |Titles(rs)| == |rs|
  {
    if rs != [] {
      var n := |rs| - 1;
      assert rs == rs[..n] + [rs[n]];
      TitlesSnoc(rs[..n], rs[n]);
      DistinctTitlesCount(rs[..n]);
      forall y | y in rs[..n] ensures y.title != rs[n].title {
        var j :| 0 <= j < n && rs[..n][j] == y;
        assert rs[j] == y;
      }
    }
  }

  /** The stage-1 invariants: the collected titles are pairwise distinct, the set of
      seen titles is the set of collected titles, and there are as many of each. */
  lemma KeepFirstCount(rs: seq<Record>)
    ensures var kept := KeepFirstByTitle(rs);
      DistinctTitles(kept) && Titles(kept) == Titles(rs) && |kept| == |Titles(rs)|
  {
    KeepFirstInvariant(rs);
    DistinctTitlesCount(KeepFirstByTitle(rs));
  }

  /** Stage 2, the pass through a set of frozen records and back to a list: one copy
      of each distinct record. Python's set gives no order; this function keeps first
      occurrences in place, but nothing below depends on that order. */
  function DistinctRecords(rs: seq<Record>): (r: seq<Record>)
    ensures NoDuplicates(r)
    ensures forall x :: x in r <==> x in rs
  {
    if rs == [] then []
    else
      var prefix := rs[..|rs| - 1];
      var last := rs[|rs| - 1];
      var prev := DistinctRecords(prefix);
      assert rs == prefix + [last];
      if last in prev then prev else prev + [last]
  }

  /** A list without duplicates has as many elements as its set of elements. */
  lemma {:induction false} NoDuplicatesCount(rs: seq<Record>)
    requires NoDuplicates(rs)
    ensures |set x | x in rs| == |rs|
  {
    if rs != [] {
      var n := |rs| - 1;
      assert rs == rs[..n] + [rs[n]];
      NoDuplicatesCount(rs[..n]);
      assert (set x | x in rs) == (set x | x in rs[..n]) + {rs[n]};
    }
  }

  /** A list without duplicates holds each of its elements exactly once. */
  lemma {:induction false} NoDuplicatesMultiplicity(rs: seq<Record>, x: Record)
    requires NoDuplicates(rs)
    ensures multiset(rs)[x] == if x in rs then 1 else 0
  {
    if rs != [] {
      var n := |rs| - 1;
      assert rs == rs[..n] + [rs[n]];
      NoDuplicatesMultiplicity(rs[..n], x);
    }
  }

  /** Stage 2 keeps one copy of every distinct record: its length is the number of
      distinct records. */
  lemma DistinctRecordsCount(rs: seq<Record>)
    ensures |DistinctRecords(rs)| == |set x | x in rs|
  {
    var r := DistinctRecords(rs);
    NoDuplicatesCount(r);
    assert (set x | x in r) == (set x | x in rs);
  }

  /** Records with distinct titles are distinct records. */
  lemma DistinctTitlesNoDuplicates(rs: seq<Record>)
    requires DistinctTitles(rs)
    ensures NoDuplicates(rs)
  {
  }

  /** After stage 1, stage 2 removes nothing: the final list is a reordering of the
      collected one (same records, each once), so the final row count is the number
      of unique titles reported at the end. */
  lemma Stage2RemovesNothing(rs: seq<Record>)
    requires DistinctTitles(rs)
    ensures multiset(DistinctRecords(rs)) == multiset(rs)
    ensures |DistinctRecords(rs)| == |rs| == |Titles(rs)|
  {
    var r := DistinctRecords(rs);
    DistinctTitlesNoDuplicates(rs);
    forall x ensures multiset(r)[x] == multiset(rs)[x] {
      NoDuplicatesMultiplicity(r, x);
      NoDuplicatesMultiplicity(rs, x);
    }
    DistinctRecordsCount(rs);
    NoDuplicatesCount(rs);
    DistinctTitlesCount(rs);
  }
}
