/**
 * The selection rule of `getTopicsForReview`: of the learning-topic rows,
 * those of one student whose next review is due, earliest first, at most five.
 * The store runs this as a query; here it is a function over the table's rows.
 */
module ReviewQueue {

  /** The columns of a `learning_topics` row that the selection looks at. */
  datatype TopicRecord = TopicRecord(
    id: string,
    studentId: string,
    topicName: string,
    masteryScore: real,
    nextReviewAt: int)

  /** At most this many topics are returned. */
  const ReviewLimit: nat := 5

  /** The row belongs to the student and its review time has come. */
  predicate IsDue(r: TopicRecord, studentId: string, now: int)
  {
    r.studentId == studentId && r.nextReviewAt <= now
  }

  /** The rows that are due, each as often as it occurs in the table. */
  function DueTopics(table: seq<TopicRecord>, studentId: string, now: int): (due: seq<TopicRecord>)
    ensures forall x :: multiset(due)[x] == if IsDue(x, studentId, now) then multiset(table)[x] else 0
  {
    if table == [] then []
    else
      var rest := DueTopics(table[1..], studentId, now);
      assert table == [table[0]] + table[1..];
      if IsDue(table[0], studentId, now) then [table[0]] + rest else rest
  }

  predicate SortedByReview(s: seq<TopicRecord>)
  {
    forall i, j :: 0 <= i < j < |s| ==> s[i].nextReviewAt <= s[j].nextReviewAt
  }

  function InsertByReview(x: TopicRecord, s: seq<TopicRecord>): (r: seq<TopicRecord>)
    requires SortedByReview(s)
    ensures SortedByReview(r)
    ensures multiset(r) == multiset(s) + multiset{x}
  {
    if s == [] then [x]
    else if x.nextReviewAt <= s[0].nextReviewAt then
      PrependSorted(x, s);
      [x] + s
    else
      var rest := InsertByReview(x, s[1..]);
      assert s == [s[0]] + s[1..];
      InsertBehindHead(s[0], x, s[1..], rest);
      [s[0]] + rest
  }

  /** The recursive step: the head stays in front of the insertion into the tail. */
  lemma InsertBehindHead(h: TopicRecord, x: TopicRecord, tail: seq<TopicRecord>, rest: seq<TopicRecord>)
    requires SortedByReview([h] + tail) && h.nextReviewAt < x.nextReviewAt
    requires SortedByReview(rest) && multiset(rest) == multiset(tail) + multiset{x}
    ensures SortedByReview([h] + rest)
    ensures multiset([h] + rest) == multiset([h] + tail) + multiset{x}
  {
    forall y | y in rest ensures h.nextReviewAt <= y.nextReviewAt {
      assert y in multiset(rest);
      if y != x {
        var j :| 0 <= j < |tail| && tail[j] == y;
        assert ([h] + tail)[0] == h && ([h] + tail)[j + 1] == y;
      }
    }
    PrependSorted(h, rest);
  }

  /** A row no later than every row of a sorted sequence can go in front of it. */
  lemma PrependSorted(h: TopicRecord, s: seq<TopicRecord>)
    requires SortedByReview(s)
    requires forall y :: y in s ==> h.nextReviewAt <= y.nextReviewAt
    ensures SortedByReview([h] + s)
  {
    forall i, j | 0 <= i < j < |[h] + s| ensures ([h] + s)[i].nextReviewAt <= ([h] + s)[j].nextReviewAt {
      if i > 0 {
        assert ([h] + s)[i] == s[i - 1];
      }
      assert ([h] + s)[j] == s[j - 1] && s[j - 1] in s;
    }
  }

  /** Rows in ascending order of `nextReviewAt`: a sorted permutation. */
  function SortByReview(s: seq<TopicRecord>): (r: seq<TopicRecord>)
    ensures SortedByReview(r)
    ensures multiset(r) == multiset(s)
  {
    if s == [] then []
    else
      assert s == [s[0]] + s[1..];
      InsertByReview(s[0], SortByReview(s[1..]))
  }

  /** A prefix of a sorted sequence holds no element later than a left-out one. */
  lemma SortedPrefixEarliest(sorted: seq<TopicRecord>, k: nat)
    requires SortedByReview(sorted) && k <= |sorted|
    ensures SortedByReview(sorted[..k])
    ensures multiset(sorted[..k]) <= multiset(sorted)
    ensures forall x :: multiset(sorted[..k])[x] < multiset(sorted)[x] ==>
              forall i :: 0 <= i < k ==> sorted[i].nextReviewAt <= x.nextReviewAt
  {
    assert sorted == sorted[..k] + sorted[k..];
    assert multiset(sorted) == multiset(sorted[..k]) + multiset(sorted[k..]);
    forall x | multiset(sorted[..k])[x] < multiset(sorted)[x]
      ensures forall i :: 0 <= i < k ==> sorted[i].nextReviewAt <= x.nextReviewAt
    {
      assert x in sorted[k..];
      var j :| 0 <= j < |sorted| - k && sorted[k..][j] == x;
      assert sorted[k + j] == x;
    }
  }

  /** Every due row is a row of the table. */
  lemma DueTopicsInTable(table: seq<TopicRecord>, studentId: string, now: int)
    ensures multiset(DueTopics(table, studentId, now)) <= multiset(table)
  {
    var due := DueTopics(table, studentId, now);
    forall x ensures multiset(due)[x] <= multiset(table)[x] {
    }
  }

  /**
   * The review list: only the student's due rows, sorted ascending, at most
   * `ReviewLimit` of them, all due rows when there are fewer, and no left-out
   * due row earlier than a selected one.
   */
  function SelectForReview(table: seq<TopicRecord>, studentId: string, now: int): (selected: seq<TopicRecord>)
    ensures |selected| == if |DueTopics(table, studentId, now)| < ReviewLimit
                          then |DueTopics(table, studentId, now)| else ReviewLimit
    ensures forall i :: 0 <= i < |selected| ==> IsDue(selected[i], studentId, now)
    ensures SortedByReview(selected)
    ensures multiset(selected) <= multiset(table)
    ensures forall x :: IsDue(x, studentId, now) && multiset(selected)[x] < multiset(table)[x] ==>
              forall i :: 0 <= i < |selected| ==> selected[i].nextReviewAt <= x.nextReviewAt
  {
    var sorted := SortByReview(DueTopics(table, studentId, now));
    var k := if |sorted| < ReviewLimit then |sorted| else ReviewLimit;
    SelectionFromSorted(table, studentId, now, sorted, sorted[..k]);
    sorted[..k]
  }

  /** The properties of a selection, for any sorted arrangement of the due rows. */
  lemma SelectionFromSorted(table: seq<TopicRecord>, studentId: string, now: int,
                            sorted: seq<TopicRecord>, selected: seq<TopicRecord>)
    requires SortedByReview(sorted) && multiset(sorted) == multiset(DueTopics(table, studentId, now))
    requires |selected| <= |sorted| && selected == sorted[..|selected|]
    ensures |sorted| == |DueTopics(table, studentId, now)|
    ensures forall i :: 0 <= i < |selected| ==> IsDue(selected[i], studentId, now)
    ensures SortedByReview(selected)
    ensures multiset(selected) <= multiset(table)
    ensures forall x :: IsDue(x, studentId, now) && multiset(selected)[x] < multiset(table)[x] ==>
              forall i :: 0 <= i < |selected| ==> selected[i].nextReviewAt <= x.nextReviewAt
  {
    var k := |selected|;
    assert |multiset(sorted)| == |sorted|;
    SortedPrefixEarliest(sorted, k);
    DueTopicsInTable(table, studentId, now);
    forall i | 0 <= i < k ensures IsDue(selected[i], studentId, now) {
      assert selected[i] in multiset(sorted);
    }
    assert forall x :: IsDue(x, studentId, now) ==> multiset(table)[x] == multiset(sorted)[x];
  }
}
