/** Documents attached to a case: a new file supersedes the current ones of the same name. Row
    ids are positions in the sequence. */
module Supersession {
  import opened Options

  datatype CaseDocument = CaseDocument(documentId: nat, filename: string, position: nat, supersededBy: Option<nat>)

  datatype Attachment = Attachment(documentId: nat, filename: string)

  // ── attaching ────────────────────────────────────────────────────────────

  function MaxPosition(rows: seq<CaseDocument>): (m: nat)
    requires rows != []
    ensures forall i :: 0 <= i < |rows| ==> rows[i].position <= m
    ensures exists i :: 0 <= i < |rows| && rows[i].position == m
  {
    var last := rows[|rows| - 1].position;
    if |rows| == 1 then last
    else
      var m := MaxPosition(rows[..|rows| - 1]);
      if last > m then last else m
  }

  function NextPosition(rows: seq<CaseDocument>): nat {
    if rows == [] then 0 else MaxPosition(rows) + 1
  }

  predicate Superseded(row: CaseDocument, filename: string) {
    row.supersededBy.None? && row.filename == filename
  }

  /** The rows after `attach_document_to_case`. */
  function Attached(rows: seq<CaseDocument>, a: Attachment): (rows': seq<CaseDocument>)
    ensures |rows'| == |rows| + 1
    ensures forall i :: 0 <= i < |rows| ==>
              rows'[i] == if Superseded(rows[i], a.filename) then rows[i].(supersededBy := Some(|rows|)) else rows[i]
    ensures rows'[|rows|] == CaseDocument(a.documentId, a.filename, NextPosition(rows), None)
  {
    seq(|rows|, i requires 0 <= i < |rows| =>
          if Superseded(rows[i], a.filename) then rows[i].(supersededBy := Some(|rows|)) else rows[i])
    + [CaseDocument(a.documentId, a.filename, NextPosition(rows), None)]
  }

  /** The rows after a sequence of attaches to an empty case. */
  function AttachAll(history: seq<Attachment>): seq<CaseDocument> {
    if history == [] then []
    else Attached(AttachAll(history[..|history| - 1]), history[|history| - 1])
  }

  class Case {
    var rows: seq<CaseDocument>

    constructor ()
      ensures rows == AttachAll([])
    {
      rows := [];
    }

    method Attach(documentId: nat, filename: string) returns (id: nat)
      modifies this
      ensures id == |old(rows)|
      ensures rows == Attached(old(rows), Attachment(documentId, filename))
    {
      ghost var rows0 := rows;
      var existing := set i: nat | i < |rows| && rows[i].filename == filename && rows[i].supersededBy.None?;
      var position := NextPosition(rows);
      id := |rows|;
      rows := rows + [CaseDocument(documentId, filename, position, None)];
      var left := existing;
      while left != {}
        invariant left <= existing
        invariant |rows| == |rows0| + 1
        invariant rows[id] == CaseDocument(documentId, filename, position, None)
        invariant forall i :: 0 <= i < id ==>
                    rows[i] == if i in existing && i !in left then rows0[i].(supersededBy := Some(id)) else rows0[i]
      {
        var i :| i in left;
        rows := rows[i := rows[i].(supersededBy := Some(id))];
        left := left - {i};
      }
      assert rows == Attached(rows0, Attachment(documentId, filename));
    }
  }

  // ── reading ──────────────────────────────────────────────────────────────

  function Insert(row: CaseDocument, sorted: seq<CaseDocument>): seq<CaseDocument> {
    if sorted == [] || row.position <= sorted[0].position then [row] + sorted
    else [sorted[0]] + Insert(row, sorted[1..])
  }

  function SortByPosition(rows: seq<CaseDocument>): seq<CaseDocument> {
    if rows == [] then [] else Insert(rows[0], SortByPosition(rows[1..]))
  }

  function Current(rows: seq<CaseDocument>): seq<CaseDocument> {
    if rows == [] then []
    else if rows[0].supersededBy.None? then [rows[0]] + Current(rows[1..])
    else Current(rows[1..])
  }

  function DocumentIds(rows: seq<CaseDocument>): seq<nat> {
    if rows == [] then [] else [rows[0].documentId] + DocumentIds(rows[1..])
  }

  /** `current_document_ids`: filter, order by position, project. */
  function CurrentDocumentIds(rows: seq<CaseDocument>): seq<nat> {
    DocumentIds(SortByPosition(Current(rows)))
  }

  // ── what attach sequences come to ────────────────────────────────────────

  /** The last attachment of each filename, in attach order. */
  function LastOfEachName(history: seq<Attachment>): seq<nat> {
    if history == [] then []
    else if exists i | 1 <= i < |history| :: history[i].filename == history[0].filename then
      LastOfEachName(history[1..])
    else [history[0].documentId] + LastOfEachName(history[1..])
  }

  /** Row i is current, or points to the next attachment of its filename. */
  ghost predicate Chained(history: seq<Attachment>, rows: seq<CaseDocument>, i: nat)
    requires i < |rows| == |history|
  {
    match rows[i].supersededBy
    case None => forall j :: i < j < |history| ==> history[j].filename != history[i].filename
    case Some(j) => i < j < |history| && history[j].filename == history[i].filename
                    && forall m :: i < m < j ==> history[m].filename != history[i].filename
  }

  ghost predicate Recorded(history: seq<Attachment>, rows: seq<CaseDocument>) {
    && |rows| == |history|
    && (forall i :: 0 <= i < |rows| ==>
          && rows[i].documentId == history[i].documentId && rows[i].filename == history[i].filename
          && rows[i].position == i
          && Chained(history, rows, i))
  }

  lemma ChainedNext(before: seq<Attachment>, a: Attachment, rows: seq<CaseDocument>, i: nat)
    requires |rows| == |before| && i <= |rows|
    requires forall m :: 0 <= m < |rows| ==> rows[m].filename == before[m].filename
    requires i < |rows| ==> Chained(before, rows, i)
    ensures Chained(before + [a], Attached(rows, a), i)
  {
  }

  lemma NextIsLength(rows: seq<CaseDocument>)
    requires forall i :: 0 <= i < |rows| ==> rows[i].position == i
    ensures NextPosition(rows) == |rows|
  {
  }

  lemma {:induction false} HistoryIsRecorded(history: seq<Attachment>)
    ensures Recorded(history, AttachAll(history))
  {
    if history != [] {
      var before, a := history[..|history| - 1], history[|history| - 1];
      assert history == before + [a];
      HistoryIsRecorded(before);
      RecordedNext(before, a, AttachAll(before));
    }
  }

  lemma RecordedNext(before: seq<Attachment>, a: Attachment, rows: seq<CaseDocument>)
    requires Recorded(before, rows)
    ensures Recorded(before + [a], Attached(rows, a))
  {
    NextIsLength(rows);
    forall i | 0 <= i <= |before| ensures Chained(before + [a], Attached(rows, a), i) {
      ChainedNext(before, a, rows, i);
    }
  }

  ghost predicate Ascending(rows: seq<CaseDocument>) {
    forall i, j :: 0 <= i < j < |rows| ==> rows[i].position < rows[j].position
  }

  lemma {:induction false} AscendingIsSorted(rows: seq<CaseDocument>)
    requires Ascending(rows)
    ensures SortByPosition(rows) == rows
  {
    if rows != [] {
      AscendingIsSorted(rows[1..]);
      if |rows| > 1 { assert rows[0].position < rows[1].position; }
    }
  }

  lemma {:induction false} CurrentAscends(rows: seq<CaseDocument>)
    requires Ascending(rows)
    ensures Ascending(Current(rows))
    ensures forall r :: r in Current(rows) ==> r in rows
  {
    if rows != [] {
      CurrentAscends(rows[1..]);
      assert forall r :: r in rows[1..] ==> rows[0].position < r.position;
      var rest := Current(rows[1..]);
      assert forall i :: 0 <= i < |rest| ==> rest[i] in rest;
    }
  }

  lemma {:induction false} CurrentAreLast(history: seq<Attachment>, rows: seq<CaseDocument>, i: nat)
    requires Recorded(history, rows) && i <= |rows|
    ensures DocumentIds(Current(rows[i..])) == LastOfEachName(history[i..])
    decreases |rows| - i
  {
    if i < |rows| {
      CurrentAreLast(history, rows, i + 1);
      assert rows[i..][1..] == rows[i + 1..] && history[i..][1..] == history[i + 1..];
      assert Chained(history, rows, i);
      var tail := history[i..];
      assert forall m :: 0 <= m < |tail| ==> tail[m] == history[i + m];
      match rows[i].supersededBy {
        case None =>
        case Some(j) => assert tail[j - i].filename == tail[0].filename;
      }
    }
  }

  /** After any sequence of attaches to an empty case, the current documents are the last
      attachment of each filename, in attach order. */
  lemma CurrentIsLastOfEachName(history: seq<Attachment>)
    ensures CurrentDocumentIds(AttachAll(history)) == LastOfEachName(history)
  {
    var rows := AttachAll(history);
    HistoryIsRecorded(history);
    CurrentAscends(rows);
    AscendingIsSorted(Current(rows));
    CurrentAreLast(history, rows, 0);
    assert rows[0..] == rows && history[0..] == history;
  }

  predicate ForwardInName(rows: seq<CaseDocument>, m: nat)
    requires m < |rows|
  {
    rows[m].supersededBy.Some? ==>
      m < rows[m].supersededBy.value < |rows| && rows[rows[m].supersededBy.value].filename == rows[m].filename
  }

  /** Follow `superseded_by_id` to the end. */
  function Follow(rows: seq<CaseDocument>, i: nat): (j: nat)
    requires i < |rows|
    requires forall m :: 0 <= m < |rows| ==> ForwardInName(rows, m)
    ensures j < |rows| && rows[j].supersededBy.None?
    decreases |rows| - i
  {
    match rows[i].supersededBy
    case None => i
    case Some(j) => assert ForwardInName(rows, i); Follow(rows, j)
  }

  lemma ChainsGoForward(history: seq<Attachment>, rows: seq<CaseDocument>)
    requires Recorded(history, rows)
    ensures forall m :: 0 <= m < |rows| ==> ForwardInName(rows, m)
  {
    forall m | 0 <= m < |rows| ensures ForwardInName(rows, m) {
      assert Chained(history, rows, m);
    }
  }

  /** Only the last row of a filename is current. */
  lemma OneCurrentPerName(history: seq<Attachment>, rows: seq<CaseDocument>, i: nat, j: nat)
    requires Recorded(history, rows) && i < |rows| && j < |rows| && rows[i].filename == rows[j].filename
    requires rows[i].supersededBy.None? && rows[j].supersededBy.None?
    ensures i == j
  {
    assert Chained(history, rows, i) && Chained(history, rows, j);
  }

  /** Every row's chain of supersession stays within its filename and ends at the one row of that
      name that is current, its last attachment. */
  lemma ChainsEndAtCurrent(history: seq<Attachment>, i: nat)
    requires i < |history|
    ensures var rows := AttachAll(history);
            && |rows| == |history|
            && (forall m :: 0 <= m < |rows| ==> ForwardInName(rows, m))
            && (forall j :: 0 <= j < |rows| && rows[j].filename == rows[i].filename ==>
                  (rows[j].supersededBy.None? <==> j == Follow(rows, i)))
  {
    var rows := AttachAll(history);
    HistoryIsRecorded(history);
    ChainsGoForward(history, rows);
    FollowKeepsName(history, rows, i);
    forall j | 0 <= j < |rows| && rows[j].filename == rows[i].filename && rows[j].supersededBy.None?
      ensures j == Follow(rows, i)
    {
      OneCurrentPerName(history, rows, j, Follow(rows, i));
    }
  }

  lemma {:induction false} FollowKeepsName(history: seq<Attachment>, rows: seq<CaseDocument>, i: nat)
    requires Recorded(history, rows) && i < |rows|
    requires forall m :: 0 <= m < |rows| ==> ForwardInName(rows, m)
    ensures rows[Follow(rows, i)].filename == rows[i].filename
    decreases |rows| - i
  {
    assert Chained(history, rows, i);
    if rows[i].supersededBy.Some? {
      FollowKeepsName(history, rows, rows[i].supersededBy.value);
    }
  }
}
