/** The web fallback database: two in-memory tables, `assessments` and `defects`, linked by
    `assessment_id`, with a date-scoped identifier allocator. */
module LocalStore {
  import opened Wrappers
  import opened Text
  import Ordering

  // ---------------------------------------------------------------- tables

  /** An element of the `assessments` table. */
  datatype Assessment = Assessment(id: string, createdAt: int, latitude: Option<real>, longitude: Option<real>)

  /** An element of the `defects` table; `assessmentId` is the link to its assessment. */
  datatype Defect = Defect(
    id: string, assessmentId: string, category: string, element: string,
    condition: int, priority: int, notes: string, photoUri: string)

  /** A row of the joined listing (`Row`). */
  datatype Row = Row(
    id: string, createdAt: int, latitude: Option<real>, longitude: Option<real>,
    category: string, element: string, condition: int, priority: int, photoUri: string)

  /** The result of a detail lookup (`AssessmentDetails`: a row plus the notes). */
  datatype Details = Details(
    id: string, createdAt: int, latitude: Option<real>, longitude: Option<real>,
    category: string, element: string, condition: int, priority: int, photoUri: string, notes: string)

  /** The argument of `saveAssessmentWithDefect`; `lat`/`lon` are the optional form strings. */
  datatype NewAssessment = NewAssessment(
    photoUri: string, lat: Option<string>, lon: Option<string>, category: string, element: string,
    condition: int, priority: int, notes: Option<string>)

  /** The argument of `upsertAssessmentWithDefectFromImport`. */
  datatype ImportRecord = ImportRecord(
    id: string, createdAt: int, latitude: Option<real>, longitude: Option<real>,
    category: string, element: string, condition: int, priority: int, notes: string, photoUri: string)

  /** The clock reading the allocator and `saveAssessmentWithDefect` use: the local calendar
      date (`getDate()`, `getMonth() + 1`, `getFullYear()`) and `Date.now()`. */
  datatype Clock = Clock(day: nat, month: nat, year: nat, millis: int)

  /** Every defect is named after its assessment and points at an assessment that exists. */
  ghost predicate Linked(assessments: seq<Assessment>, defects: seq<Defect>)
  {
    forall j :: 0 <= j < |defects| ==>
      && defects[j].id == defects[j].assessmentId + "-d1"
      && exists i :: 0 <= i < |assessments| && assessments[i].id == defects[j].assessmentId
  }

  // ---------------------------------------------------------------- identifier allocator

  /** `pad2(n)`: `String(n).padStart(2, '0')`. */
  function Pad2(n: int): string
  {
    PadStart(IntToString(n), 2, '0')
  }

  /** The `DDMMYYYY-` prefix of the identifiers allocated on one day. */
  function DatePrefix(day: nat, month: nat, year: nat): string
  {
    Pad2(day) + Pad2(month) + IntToString(year) + "-"
  }

  /** The identifiers of the assessments that start with `prefix`, in table order. */
  function IdsWithPrefix(assessments: seq<Assessment>, prefix: string): (ids: seq<string>)
    ensures forall x :: x in ids <==> exists i :: 0 <= i < |assessments| && assessments[i].id == x && StartsWith(x, prefix)
  {
    if assessments == [] then []
    else
      var rest := IdsWithPrefix(assessments[1..], prefix);
      assert forall i :: 1 <= i < |assessments| ==> assessments[i] == assessments[1..][i - 1];
      if StartsWith(assessments[0].id, prefix) then [assessments[0].id] + rest else rest
  }

  /** The sequence number that follows the greatest of today's identifiers: one more than
      `parseInt` of the text after its first dash (`"00"` when there is no dash), or 1 when
      that text does not start with a number. */
  function SequenceAfter(greatest: string): int
  {
    var tail := match SecondPiece(greatest, '-') case Some(t) => t case None => "00";
    match ParseInt(tail)
    case Some(n) => n + 1
    case None => 1
  }

  /** The sequence number `nextStandardId` uses: 1 on a day without identifiers. */
  function NextSequence(todays: seq<string>): int
  {
    if |todays| == 0 then 1 else SequenceAfter(MaxString(todays))
  }

  /** The identifier the allocator hands out after the identifiers already using `prefix`. */
  function NextIdAfter(assessments: seq<Assessment>, prefix: string): (id: string)
    ensures StartsWith(id, prefix)
    ensures IdsWithPrefix(assessments, prefix) == [] ==> id == prefix + "01"
  {
    var id := prefix + Pad2(NextSequence(IdsWithPrefix(assessments, prefix)));
    assert id[..|prefix|] == prefix;
    id
  }

  /** `nextStandardId`: the date prefix followed by the padded next sequence number. */
  function NextStandardId(assessments: seq<Assessment>, day: nat, month: nat, year: nat): (id: string)
    ensures StartsWith(id, DatePrefix(day, month, year))
    ensures IdsWithPrefix(assessments, DatePrefix(day, month, year)) == [] ==> id == DatePrefix(day, month, year) + "01"
  {
    NextIdAfter(assessments, DatePrefix(day, month, year))
  }

  // ---------------------------------------------------------------- lookups and the join

  /** `findIndex(a => a.id === id)`: -1 when there is none. */
  function AssessmentIndex(s: seq<Assessment>, id: string): (r: int)
    ensures -1 <= r < |s|
    ensures r >= 0 ==> s[r].id == id && forall k :: 0 <= k < r ==> s[k].id != id
    ensures r == -1 ==> forall k :: 0 <= k < |s| ==> s[k].id != id
  {
    if s == [] then -1
    else if s[0].id == id then 0
    else
      var r := AssessmentIndex(s[1..], id);
      assert forall k :: 1 <= k < |s| ==> s[k] == s[1..][k - 1];
      if r == -1 then -1 else r + 1
  }

  /** `findIndex(d => d.assessment_id === id)`: -1 when there is none. */
  function DefectIndex(s: seq<Defect>, id: string): (r: int)
    ensures -1 <= r < |s|
    ensures r >= 0 ==> s[r].assessmentId == id && forall k :: 0 <= k < r ==> s[k].assessmentId != id
    ensures r == -1 ==> forall k :: 0 <= k < |s| ==> s[k].assessmentId != id
  {
    if s == [] then -1
    else if s[0].assessmentId == id then 0
    else
      var r := DefectIndex(s[1..], id);
      assert forall k :: 1 <= k < |s| ==> s[k] == s[1..][k - 1];
      if r == -1 then -1 else r + 1
  }

  /** The first position holding `id` is the one `findIndex` returns. */
  lemma AssessmentIndexAt(s: seq<Assessment>, id: string, r: int)
    requires 0 <= r <= |s|
    requires r < |s| ==> s[r].id == id
    requires forall k :: 0 <= k < r ==> s[k].id != id
    ensures AssessmentIndex(s, id) == if r < |s| then r else -1
  {
  }

  lemma DefectIndexAt(s: seq<Defect>, id: string, r: int)
    requires 0 <= r <= |s|
    requires r < |s| ==> s[r].assessmentId == id
    requires forall k :: 0 <= k < r ==> s[k].assessmentId != id
    ensures DefectIndex(s, id) == if r < |s| then r else -1
  {
  }

  function RowOf(a: Assessment, d: Defect): Row
  {
    Row(a.id, a.createdAt, a.latitude, a.longitude, d.category, d.element, d.condition, d.priority, d.photoUri)
  }

  function DetailsOf(a: Assessment, d: Defect): Details
  {
    Details(a.id, a.createdAt, a.latitude, a.longitude, d.category, d.element, d.condition, d.priority, d.photoUri, d.notes)
  }

  function CreatedAt(r: Row): int { r.createdAt }

  /** The joined rows before sorting: each assessment with its first defect, in table order;
      assessments without a defect are dropped. */
  function JoinRows(assessments: seq<Assessment>, defects: seq<Defect>): seq<Row>
  {
    if assessments == [] then []
    else
      var di := DefectIndex(defects, assessments[0].id);
      (if di >= 0 then [RowOf(assessments[0], defects[di])] else []) + JoinRows(assessments[1..], defects)
  }

  /** Whether assessment `i` has a defect and `row` is its joined row. */
  predicate JoinedAt(assessments: seq<Assessment>, defects: seq<Defect>, i: int, row: Row)
  {
    && 0 <= i < |assessments|
    && DefectIndex(defects, assessments[i].id) >= 0
    && row == RowOf(assessments[i], defects[DefectIndex(defects, assessments[i].id)])
  }

  /** The number of assessments that have at least one defect. */
  function CountWithDefect(assessments: seq<Assessment>, defects: seq<Defect>): nat
  {
    if assessments == [] then 0
    else (if DefectIndex(defects, assessments[0].id) >= 0 then 1 else 0) + CountWithDefect(assessments[1..], defects)
  }

  lemma {:induction false} JoinRowsMembers(assessments: seq<Assessment>, defects: seq<Defect>)
    ensures |JoinRows(assessments, defects)| == CountWithDefect(assessments, defects)
    ensures forall row :: row in JoinRows(assessments, defects) <==> exists i :: JoinedAt(assessments, defects, i, row)
    decreases |assessments|
  {
    if assessments != [] {
      var tl := assessments[1..];
      var di := DefectIndex(defects, assessments[0].id);
      var head := if di >= 0 then [RowOf(assessments[0], defects[di])] else [];
      JoinRowsMembers(tl, defects);
      assert JoinRows(assessments, defects) == head + JoinRows(tl, defects);
      forall row ensures row in JoinRows(assessments, defects) <==> exists i :: JoinedAt(assessments, defects, i, row) {
        if row in head {
          assert JoinedAt(assessments, defects, 0, row);
        }
        if row in JoinRows(tl, defects) {
          var i :| JoinedAt(tl, defects, i, row);
          assert assessments[i + 1] == tl[i];
          assert JoinedAt(assessments, defects, i + 1, row);
        }
        if i :| JoinedAt(assessments, defects, i, row) {
          if i > 0 {
            assert assessments[i] == tl[i - 1];
            assert JoinedAt(tl, defects, i - 1, row);
          } else {
            assert row in head;
          }
        }
      }
    }
  }

  /** `listAssessments`: the joined rows, newest first. */
  function ListAssessments(assessments: seq<Assessment>, defects: seq<Defect>): (rows: seq<Row>)
    ensures Ordering.SortedDesc(rows, CreatedAt)
    ensures |rows| == CountWithDefect(assessments, defects)
    ensures forall row :: row in rows <==> exists i :: JoinedAt(assessments, defects, i, row)
    ensures multiset(rows) == multiset(JoinRows(assessments, defects))
  {
    var joined := JoinRows(assessments, defects);
    JoinRowsMembers(assessments, defects);
    var rows := Ordering.SortDesc(joined, CreatedAt);
    forall row ensures row in rows <==> row in joined {
      Ordering.SortDescMembers(joined, CreatedAt, row);
    }
    rows
  }

  /** `getAssessmentDetails`: the first assessment with `id` joined with the first defect
      linked to `id`, or nothing when either is missing. */
  function GetAssessmentDetails(assessments: seq<Assessment>, defects: seq<Defect>, id: string): (r: Option<Details>)
    ensures r.Some? <==>
      (exists i :: 0 <= i < |assessments| && assessments[i].id == id)
      && (exists j :: 0 <= j < |defects| && defects[j].assessmentId == id)
    ensures r.Some? ==> exists i, j ::
      && 0 <= i < |assessments| && assessments[i].id == id && (forall k :: 0 <= k < i ==> assessments[k].id != id)
      && 0 <= j < |defects| && defects[j].assessmentId == id && (forall k :: 0 <= k < j ==> defects[k].assessmentId != id)
      && r.value == DetailsOf(assessments[i], defects[j])
  {
    var ai := AssessmentIndex(assessments, id);
    var di := DefectIndex(defects, id);
    if ai < 0 || di < 0 then None else Some(DetailsOf(assessments[ai], defects[di]))
  }

  // ---------------------------------------------------------------- deletion

  /** `assessments.filter(a => a.id !== id)`. */
  function WithoutAssessment(s: seq<Assessment>, id: string): seq<Assessment>
  {
    if s == [] then [] else (if s[0].id != id then [s[0]] else []) + WithoutAssessment(s[1..], id)
  }

  /** `defects.filter(d => d.assessment_id !== id)`. */
  function WithoutDefectsOf(s: seq<Defect>, id: string): seq<Defect>
  {
    if s == [] then [] else (if s[0].assessmentId != id then [s[0]] else []) + WithoutDefectsOf(s[1..], id)
  }

  /** Filtering keeps exactly the entries with another identifier. */
  lemma {:induction false} WithoutAssessmentMembers(s: seq<Assessment>, id: string)
    ensures forall a :: a in WithoutAssessment(s, id) <==> a in s && a.id != id
    decreases |s|
  {
    if s != [] {
      WithoutAssessmentMembers(s[1..], id);
      assert s == [s[0]] + s[1..];
    }
  }

  lemma {:induction false} WithoutDefectsOfMembers(s: seq<Defect>, id: string)
    ensures forall d :: d in WithoutDefectsOf(s, id) <==> d in s && d.assessmentId != id
    decreases |s|
  {
    if s != [] {
      WithoutDefectsOfMembers(s[1..], id);
      assert s == [s[0]] + s[1..];
    }
  }

  /** Filtering is applied element by element, so the kept entries stay in their order. */
  lemma {:induction false} WithoutAssessmentAppend(s: seq<Assessment>, t: seq<Assessment>, id: string)
    ensures WithoutAssessment(s + t, id) == WithoutAssessment(s, id) + WithoutAssessment(t, id)
    decreases |s|
  {
    if s != [] {
      assert (s + t)[1..] == s[1..] + t;
      WithoutAssessmentAppend(s[1..], t, id);
    } else {
      assert s + t == t;
    }
  }

  lemma {:induction false} WithoutDefectsOfAppend(s: seq<Defect>, t: seq<Defect>, id: string)
    ensures WithoutDefectsOf(s + t, id) == WithoutDefectsOf(s, id) + WithoutDefectsOf(t, id)
    decreases |s|
  {
    if s != [] {
      assert (s + t)[1..] == s[1..] + t;
      WithoutDefectsOfAppend(s[1..], t, id);
    } else {
      assert s + t == t;
    }
  }

  /** Nothing is removed from a table that holds no entry for `id`; hence deleting twice is
      deleting once. */
  lemma {:induction false} WithoutAssessmentUnchanged(s: seq<Assessment>, id: string)
    requires forall k :: 0 <= k < |s| ==> s[k].id != id
    ensures WithoutAssessment(s, id) == s
    decreases |s|
  {
    if s != [] {
      WithoutAssessmentUnchanged(s[1..], id);
      assert s == [s[0]] + s[1..];
    }
  }

  lemma {:induction false} WithoutDefectsOfUnchanged(s: seq<Defect>, id: string)
    requires forall k :: 0 <= k < |s| ==> s[k].assessmentId != id
    ensures WithoutDefectsOf(s, id) == s
    decreases |s|
  {
    if s != [] {
      WithoutDefectsOfUnchanged(s[1..], id);
      assert s == [s[0]] + s[1..];
    }
  }

  /** `deleteAssessment` is idempotent. */
  lemma DeleteIdempotent(assessments: seq<Assessment>, defects: seq<Defect>, id: string)
    ensures WithoutAssessment(WithoutAssessment(assessments, id), id) == WithoutAssessment(assessments, id)
    ensures WithoutDefectsOf(WithoutDefectsOf(defects, id), id) == WithoutDefectsOf(defects, id)
  {
    var a1 := WithoutAssessment(assessments, id);
    var d1 := WithoutDefectsOf(defects, id);
    WithoutAssessmentMembers(assessments, id);
    WithoutDefectsOfMembers(defects, id);
    assert forall k :: 0 <= k < |a1| ==> a1[k] in a1;
    assert forall k :: 0 <= k < |d1| ==> d1[k] in d1;
    WithoutAssessmentUnchanged(a1, id);
    WithoutDefectsOfUnchanged(d1, id);
  }

  /** After `deleteAssessment(id)` nothing can be found or listed under `id`. */
  lemma DeleteRemovesRecord(assessments: seq<Assessment>, defects: seq<Defect>, id: string)
    ensures GetAssessmentDetails(WithoutAssessment(assessments, id), WithoutDefectsOf(defects, id), id) == None
    ensures forall row :: row in ListAssessments(WithoutAssessment(assessments, id), WithoutDefectsOf(defects, id)) ==> row.id != id
  {
    var a1 := WithoutAssessment(assessments, id);
    WithoutAssessmentMembers(assessments, id);
    assert forall k :: 0 <= k < |a1| ==> a1[k] in a1;
  }

  /** Deletion keeps the tables linked: the defects that remain point at assessments that
      remain. */
  lemma DeletePreservesLinked(assessments: seq<Assessment>, defects: seq<Defect>, id: string)
    requires Linked(assessments, defects)
    ensures Linked(WithoutAssessment(assessments, id), WithoutDefectsOf(defects, id))
  {
    var a1 := WithoutAssessment(assessments, id);
    var d1 := WithoutDefectsOf(defects, id);
    WithoutAssessmentMembers(assessments, id);
    WithoutDefectsOfMembers(defects, id);
    forall j | 0 <= j < |d1|
      ensures d1[j].id == d1[j].assessmentId + "-d1"
      ensures exists i :: 0 <= i < |a1| && a1[i].id == d1[j].assessmentId
    {
      assert d1[j] in d1;
      var jj :| 0 <= jj < |defects| && defects[jj] == d1[j];
      var i :| 0 <= i < |assessments| && assessments[i].id == defects[jj].assessmentId;
      assert assessments[i] in a1;
      var i1 :| 0 <= i1 < |a1| && a1[i1] == assessments[i];
    }
  }

  // ---------------------------------------------------------------- import upsert

  function AssessmentOfImport(p: ImportRecord): Assessment
  {
    Assessment(p.id, p.createdAt, p.latitude, p.longitude)
  }

  function DefectOfImport(p: ImportRecord): Defect
  {
    Defect(p.id + "-d1", p.id, p.category, p.element, p.condition, p.priority, p.notes, p.photoUri)
  }

  /** The `assessments` table after the upsert: the first entry with `p.id` replaced, or `p`
      appended. */
  function UpsertAssessments(s: seq<Assessment>, p: ImportRecord): seq<Assessment>
  {
    var ai := AssessmentIndex(s, p.id);
    if ai >= 0 then s[ai := AssessmentOfImport(p)] else s + [AssessmentOfImport(p)]
  }

  /** The `defects` table after the upsert: the first defect linked to `p.id` replaced, or
      the new defect appended. */
  function UpsertDefects(s: seq<Defect>, p: ImportRecord): seq<Defect>
  {
    var di := DefectIndex(s, p.id);
    if di >= 0 then s[di := DefectOfImport(p)] else s + [DefectOfImport(p)]
  }

  /** The tables grow only when `p.id` is new, by one entry each, and every entry other than
      the replaced one stays where it was. */
  lemma UpsertShape(assessments: seq<Assessment>, defects: seq<Defect>, p: ImportRecord)
    ensures (exists i :: 0 <= i < |assessments| && assessments[i].id == p.id)
      ==> |UpsertAssessments(assessments, p)| == |assessments|
    ensures (forall i :: 0 <= i < |assessments| ==> assessments[i].id != p.id)
      ==> UpsertAssessments(assessments, p) == assessments + [AssessmentOfImport(p)]
    ensures (exists j :: 0 <= j < |defects| && defects[j].assessmentId == p.id)
      ==> |UpsertDefects(defects, p)| == |defects|
    ensures (forall j :: 0 <= j < |defects| ==> defects[j].assessmentId != p.id)
      ==> UpsertDefects(defects, p) == defects + [DefectOfImport(p)]
    ensures forall k :: (0 <= k < |assessments| && k != AssessmentIndex(assessments, p.id)
      ==> UpsertAssessments(assessments, p)[k] == assessments[k])
    ensures forall k :: (0 <= k < |defects| && k != DefectIndex(defects, p.id)
      ==> UpsertDefects(defects, p)[k] == defects[k])
  {
  }

  /** Where the imported assessment sits after the upsert: the replaced position, or the end. */
  lemma UpsertAssessmentPosition(assessments: seq<Assessment>, p: ImportRecord)
    ensures var ai := AssessmentIndex(assessments, p.id);
      AssessmentIndex(UpsertAssessments(assessments, p), p.id) == (if ai >= 0 then ai else |assessments|)
  {
    var ai := AssessmentIndex(assessments, p.id);
    if ai >= 0 {
      var a1 := assessments[ai := AssessmentOfImport(p)];
      assert forall k :: 0 <= k < ai ==> a1[k] == assessments[k];
      AssessmentIndexAt(a1, p.id, ai);
    } else {
      var a1 := assessments + [AssessmentOfImport(p)];
      assert forall k :: 0 <= k < |assessments| ==> a1[k] == assessments[k];
      AssessmentIndexAt(a1, p.id, |assessments|);
    }
  }

  /** Where the imported defect sits after the upsert: the replaced position, or the end. */
  lemma UpsertDefectPosition(defects: seq<Defect>, p: ImportRecord)
    ensures var di := DefectIndex(defects, p.id);
      DefectIndex(UpsertDefects(defects, p), p.id) == (if di >= 0 then di else |defects|)
  {
    var di := DefectIndex(defects, p.id);
    if di >= 0 {
      var d1 := defects[di := DefectOfImport(p)];
      assert forall k :: 0 <= k < di ==> d1[k] == defects[k];
      DefectIndexAt(d1, p.id, di);
    } else {
      var d1 := defects + [DefectOfImport(p)];
      assert forall k :: 0 <= k < |defects| ==> d1[k] == defects[k];
      DefectIndexAt(d1, p.id, |defects|);
    }
  }

  /** After the upsert, the detail lookup of `p.id` returns exactly the imported fields. */
  lemma UpsertThenDetails(assessments: seq<Assessment>, defects: seq<Defect>, p: ImportRecord)
    ensures GetAssessmentDetails(UpsertAssessments(assessments, p), UpsertDefects(defects, p), p.id)
      == Some(Details(p.id, p.createdAt, p.latitude, p.longitude, p.category, p.element,
                      p.condition, p.priority, p.photoUri, p.notes))
  {
    UpsertAssessmentPosition(assessments, p);
    UpsertDefectPosition(defects, p);
  }

  /** A second identical upsert changes nothing. */
  lemma UpsertIdempotent(assessments: seq<Assessment>, defects: seq<Defect>, p: ImportRecord)
    ensures UpsertAssessments(UpsertAssessments(assessments, p), p) == UpsertAssessments(assessments, p)
    ensures UpsertDefects(UpsertDefects(defects, p), p) == UpsertDefects(defects, p)
  {
    UpsertAssessmentPosition(assessments, p);
    UpsertDefectPosition(defects, p);
  }

  lemma UpsertPreservesLinked(assessments: seq<Assessment>, defects: seq<Defect>, p: ImportRecord)
    requires Linked(assessments, defects)
    ensures Linked(UpsertAssessments(assessments, p), UpsertDefects(defects, p))
  {
    var a1 := UpsertAssessments(assessments, p);
    var d1 := UpsertDefects(defects, p);
    var ai := AssessmentIndex(assessments, p.id);
    var pi := if ai >= 0 then ai else |assessments|;
    assert a1[pi].id == p.id;
    forall j | 0 <= j < |d1|
      ensures d1[j].id == d1[j].assessmentId + "-d1"
      ensures exists i :: 0 <= i < |a1| && a1[i].id == d1[j].assessmentId
    {
      if d1[j].assessmentId != p.id {
        assert d1[j] == defects[j];
        var i :| 0 <= i < |assessments| && assessments[i].id == defects[j].assessmentId;
        assert i != ai;
        assert a1[i] == assessments[i];
      }
    }
  }

  // ---------------------------------------------------------------- saving

  /** `p.lat ? Number(p.lat) : null`, with `Number` supplied by the caller. */
  function Coordinate(text: Option<string>, toNumber: string -> real): Option<real>
  {
    match text
    case Some(t) => if t != "" then Some(toNumber(t)) else None
    case None => None
  }

  function NewAssessmentEntry(id: string, p: NewAssessment, clock: Clock, toNumber: string -> real): Assessment
  {
    Assessment(id, clock.millis, Coordinate(p.lat, toNumber), Coordinate(p.lon, toNumber))
  }

  function NewDefectEntry(id: string, p: NewAssessment): Defect
  {
    Defect(id + "-d1", id, p.category, p.element, p.condition, p.priority,
           match p.notes case Some(n) => n case None => "", p.photoUri)
  }

  /** Saving keeps the tables linked; when the allocated identifier is new, the detail lookup
      returns the saved fields with notes defaulting to the empty string. */
  lemma SaveThenDetails(assessments: seq<Assessment>, defects: seq<Defect>, id: string, a: Assessment, d: Defect)
    requires Linked(assessments, defects)
    requires a.id == id && d == Defect(id + "-d1", id, d.category, d.element, d.condition, d.priority, d.notes, d.photoUri)
    ensures Linked(assessments + [a], defects + [d])
    ensures (forall i :: 0 <= i < |assessments| ==> assessments[i].id != id)
      ==> GetAssessmentDetails(assessments + [a], defects + [d], id) == Some(DetailsOf(a, d))
  {
    var a1, d1 := assessments + [a], defects + [d];
    forall j | 0 <= j < |d1|
      ensures exists i :: 0 <= i < |a1| && a1[i].id == d1[j].assessmentId
    {
      if j < |defects| {
        var i :| 0 <= i < |assessments| && assessments[i].id == defects[j].assessmentId;
        assert a1[i] == assessments[i];
      } else {
        assert a1[|assessments|] == a;
      }
    }
    if forall i :: 0 <= i < |assessments| ==> assessments[i].id != id {
      forall j | 0 <= j < |defects| ensures defects[j].assessmentId != id {
        var i :| 0 <= i < |assessments| && assessments[i].id == defects[j].assessmentId;
      }
      assert forall k :: 0 <= k < |assessments| ==> a1[k] == assessments[k];
      assert forall k :: 0 <= k < |defects| ==> d1[k] == defects[k];
      AssessmentIndexAt(a1, id, |assessments|);
      DefectIndexAt(d1, id, |defects|);
    }
  }

  // ---------------------------------------------------------------- the store

  /** The persisted `Stored` state, held in memory. */
  class WebDatabase {
    var assessments: seq<Assessment>
    var defects: seq<Defect>

    ghost predicate Valid()
      reads this
    {
      Linked(assessments, defects)
    }

    /** `load()` when nothing is stored yet. */
    constructor ()
      ensures assessments == [] && defects == [] && Valid()
    {
      assessments, defects := [], [];
    }

    /** `load()` of previously saved tables, which need not be linked. */
    constructor Load(storedAssessments: seq<Assessment>, storedDefects: seq<Defect>)
      ensures assessments == storedAssessments && defects == storedDefects
    {
      assessments, defects := storedAssessments, storedDefects;
    }

    /** `saveAssessmentWithDefect`: allocates the next identifier of the day and appends one
        assessment and its defect `${id}-d1`. */
    method SaveAssessmentWithDefect(p: NewAssessment, clock: Clock, toNumber: string -> real) returns (id: string)
      modifies this
      ensures id == NextStandardId(old(assessments), clock.day, clock.month, clock.year)
      ensures assessments == old(assessments) + [NewAssessmentEntry(id, p, clock, toNumber)]
      ensures defects == old(defects) + [NewDefectEntry(id, p)]
      ensures old(Valid()) ==> Valid()
    {
      id := NextStandardId(assessments, clock.day, clock.month, clock.year);
      var a := Assessment(id, clock.millis, Coordinate(p.lat, toNumber), Coordinate(p.lon, toNumber));
      var d := Defect(id + "-d1", id, p.category, p.element, p.condition, p.priority,
                      match p.notes case Some(n) => n case None => "", p.photoUri);
      if Valid() {
        SaveThenDetails(assessments, defects, id, a, d);
      }
      assessments := assessments + [a];
      defects := defects + [d];
    }

    /** `deleteAssessment`: drops every assessment with `id` and every defect linked to it. */
    method DeleteAssessment(id: string)
      modifies this
      ensures assessments == WithoutAssessment(old(assessments), id)
      ensures defects == WithoutDefectsOf(old(defects), id)
      ensures old(Valid()) ==> Valid()
    {
      if Valid() {
        DeletePreservesLinked(assessments, defects, id);
      }
      assessments := WithoutAssessment(assessments, id);
      defects := WithoutDefectsOf(defects, id);
    }

    /** `upsertAssessmentWithDefectFromImport`: replaces the first matching entries in place,
        or appends them. */
    method UpsertAssessmentWithDefectFromImport(p: ImportRecord)
      modifies this
      ensures assessments == UpsertAssessments(old(assessments), p)
      ensures defects == UpsertDefects(old(defects), p)
      ensures old(Valid()) ==> Valid()
    {
      if Valid() {
        UpsertPreservesLinked(assessments, defects, p);
      }
      var ai := AssessmentIndex(assessments, p.id);
      var entry := Assessment(p.id, p.createdAt, p.latitude, p.longitude);
      if ai >= 0 {
        assessments := assessments[ai := entry];
      } else {
        assessments := assessments + [entry];
      }
      var di := DefectIndex(defects, p.id);
      var record := Defect(p.id + "-d1", p.id, p.category, p.element, p.condition, p.priority, p.notes, p.photoUri);
      if di >= 0 {
        defects := defects[di := record];
      } else {
        defects := defects + [record];
      }
    }
  }

  // ---------------------------------------------------------------- allocator properties

  lemma {:induction false} Pad2Digits(n: nat)
    requires n < 100
    ensures Pad2(n) == [DigitChar(n / 10), DigitChar(n % 10)]
  {
    if n < 10 {
      assert IntToString(n) == [DigitChar(n)];
      assert Repeat('0', 1) == ['0'];
    } else {
      NatToStringTwoDigits(n);
    }
  }

  /** A sequence below 100 is written with exactly two digits, and reads back as itself. */
  lemma Pad2TwoDigits(n: nat)
    requires n < 100
    ensures |Pad2(n)| == 2 && AllDigits(Pad2(n)) && '-' !in Pad2(n)
    ensures DigitsValue(Pad2(n)) == n
    ensures ParseInt(Pad2(n)) == Some(n)
  {
    Pad2Digits(n);
    TwoDigitsValue(n / 10, n % 10);
    ParseIntOfDigits(Pad2(n));
  }

  lemma TwoDigitsValue(d: nat, e: nat)
    requires d < 10 && e < 10
    ensures AllDigits([DigitChar(d), DigitChar(e)])
    ensures DigitsValue([DigitChar(d), DigitChar(e)]) == 10 * d + e
  {
    var s := [DigitChar(d), DigitChar(e)];
    assert DigitValue(DigitChar(d)) == d && DigitValue(DigitChar(e)) == e;
    assert s[..1] == [DigitChar(d)];
    assert [DigitChar(d)][..0] == [];
    assert DigitsValue(s[..1]) == d;
  }

  /** Padding never truncates: `pad2(n)` is `String(n)` with zeros in front up to two
      characters, and for n >= 100 it is `String(n)` unchanged. */
  lemma Pad2NeverTruncates(n: nat)
    ensures |Pad2(n)| == if n < 10 then 2 else |NatToString(n)|
    ensures Pad2(n)[|Pad2(n)| - |NatToString(n)|..] == NatToString(n)
    ensures n >= 10 ==> Pad2(n) == NatToString(n)
  {
  }

  lemma TwoDigitOrder(a: nat, b: nat)
    requires a < 100 && b < 100
    ensures a <= b <==> a / 10 < b / 10 || (a / 10 == b / 10 && a % 10 <= b % 10)
  {
    assert a == 10 * (a / 10) + a % 10;
    assert b == 10 * (b / 10) + b % 10;
  }

  lemma LexLeTwoChars(x: string, y: string)
    requires |x| == 2 && |y| == 2
    ensures LexLe(x, y) <==> x[0] < y[0] || (x[0] == y[0] && x[1] <= y[1])
  {
    var x1, y1 := x[1..], y[1..];
    assert x1[1..] == [] && y1[1..] == [];
    assert LexLe(x1, y1) <==> x[1] <= y[1];
  }

  lemma DigitCharOrder(d: nat, e: nat)
    requires d < 10 && e < 10
    ensures DigitChar(d) < DigitChar(e) <==> d < e
    ensures DigitChar(d) <= DigitChar(e) <==> d <= e
    ensures DigitChar(d) == DigitChar(e) <==> d == e
  {
  }

  /** The order of two-digit padded strings is the numeric order. */
  lemma Pad2Order(a: nat, b: nat)
    requires a < 100 && b < 100
    ensures LexLe(Pad2(a), Pad2(b)) <==> a <= b
  {
    Pad2Digits(a);
    Pad2Digits(b);
    TwoDigitStringsOrder(Pad2(a), Pad2(b), a, b);
  }

  lemma TwoDigitStringsOrder(x: string, y: string, a: nat, b: nat)
    requires a < 100 && b < 100
    requires x == [DigitChar(a / 10), DigitChar(a % 10)] && y == [DigitChar(b / 10), DigitChar(b % 10)]
    ensures LexLe(x, y) <==> a <= b
  {
    LexLeTwoChars(x, y);
    DigitCharOrder(a / 10, b / 10);
    DigitCharOrder(a % 10, b % 10);
    TwoDigitOrder(a, b);
  }

  lemma NatToStringNoDash(n: nat)
    ensures '-' !in NatToString(n)
  {
    var s := NatToString(n);
    assert forall k :: 0 <= k < |s| ==> s[k] != '-';
  }

  lemma {:induction false} AfterFirstPastDigits(d: string, tail: string)
    requires '-' !in d
    ensures AfterFirst(d + "-" + tail, '-') == Some(tail)
    decreases |d|
  {
    if d == [] {
      assert d + "-" + tail == "-" + tail;
      assert ("-" + tail)[1..] == tail;
    } else {
      assert (d + "-" + tail)[1..] == d[1..] + "-" + tail;
      AfterFirstPastDigits(d[1..], tail);
    }
  }

  lemma {:induction false} TakeUntilAbsent(s: string, sep: char)
    requires sep !in s
    ensures TakeUntil(s, sep) == s
    decreases |s|
  {
    if s != [] {
      TakeUntilAbsent(s[1..], sep);
      assert s == [s[0]] + s[1..];
    }
  }

  /** The only dash of `p` is its last character. */
  predicate DashOnlyAtEnd(p: string)
  {
    |p| > 0 && p[|p| - 1] == '-' && '-' !in p[..|p| - 1]
  }

  lemma DatePrefixDash(day: nat, month: nat, year: nat)
    ensures DashOnlyAtEnd(DatePrefix(day, month, year))
  {
    var p := DatePrefix(day, month, year);
    var d := Pad2(day) + Pad2(month) + IntToString(year);
    NatToStringNoDash(day);
    NatToStringNoDash(month);
    NatToStringNoDash(year);
    assert '-' !in Pad2(day) && '-' !in Pad2(month);
    assert p[..|p| - 1] == d;
  }

  /** The piece `split('-')[1]` of an identifier `prefix + tail` is `tail` whenever the tail
      has no dash. */
  lemma PrefixTail(p: string, tail: string)
    requires DashOnlyAtEnd(p) && '-' !in tail
    ensures SecondPiece(p + tail, '-') == Some(tail)
  {
    PrefixPiece(p, tail);
    TakeUntilAbsent(tail, '-');
  }

  /** Whatever follows the prefix, the piece `split('-')[1]` is the tail up to its own first
      dash. */
  lemma PrefixPiece(p: string, tail: string)
    requires DashOnlyAtEnd(p)
    ensures SecondPiece(p + tail, '-') == Some(TakeUntil(tail, '-'))
  {
    var d := p[..|p| - 1];
    assert p + tail == d + "-" + tail;
    AfterFirstPastDigits(d, tail);
  }

  lemma NatToStringFourDigits(n: nat)
    requires 1000 <= n < 10000
    ensures |NatToString(n)| == 4
  {
    assert |NatToString(n)| == |NatToString(n / 10)| + 1;
    assert |NatToString(n / 10)| == |NatToString(n / 100)| + 1 by {
      assert n / 10 / 10 == n / 100;
    }
    assert |NatToString(n / 100)| == |NatToString(n / 1000)| + 1 by {
      assert n / 100 / 10 == n / 1000;
    }
  }

  lemma DateSlices(d: string, m: string, y: string)
    requires |d| == 2 && |m| == 2 && |y| == 4
    requires AllDigits(d) && AllDigits(m) && AllDigits(y)
    ensures var p := d + m + y + "-";
      && |p| == 9 && p[8] == '-' && AllDigits(p[..8])
      && p[0..2] == d && p[2..4] == m && p[4..8] == y
  {
    var p := d + m + y + "-";
    assert p[0..2] == d && p[2..4] == m && p[4..8] == y;
    assert forall k :: 0 <= k < 8 ==> p[..8][k] == if k < 2 then d[k] else if k < 4 then m[k - 2] else y[k - 4];
  }

  /** For a calendar date with a four-digit year, the prefix is `DDMMYYYY-`: eight digits
      that read back as day, month and year, then a dash. */
  lemma DatePrefixFormat(day: nat, month: nat, year: nat)
    requires 1 <= day <= 31 && 1 <= month <= 12 && 1000 <= year <= 9999
    ensures var p := DatePrefix(day, month, year);
      && |p| == 9 && p[8] == '-' && AllDigits(p[..8])
      && ParseInt(p[0..2]) == Some(day) && ParseInt(p[2..4]) == Some(month) && ParseInt(p[4..8]) == Some(year)
  {
    var d, m, y := Pad2(day), Pad2(month), NatToString(year);
    Pad2TwoDigits(day);
    Pad2TwoDigits(month);
    NatToStringFourDigits(year);
    ParseIntOfDigits(y);
    DateSlices(d, m, y);
    assert DatePrefix(day, month, year) == d + m + y + "-";
  }

  /** The allocator's string order: once `…-100` is stored beside `…-99`, `…-99` is still the
      greatest of the day, so the identifier handed out next is `…-100` again. */
  lemma CollisionAfterNinetyNine(day: nat, month: nat, year: nat, a: Assessment, b: Assessment)
    requires a.id == DatePrefix(day, month, year) + "99"
    requires b.id == DatePrefix(day, month, year) + "100"
    ensures NextStandardId([a, b], day, month, year) == b.id
  {
    DatePrefixDash(day, month, year);
    CollisionAfter(DatePrefix(day, month, year), a, b);
  }

  lemma CollisionAfter(p: string, a: Assessment, b: Assessment)
    requires DashOnlyAtEnd(p)
    requires a.id == p + "99" && b.id == p + "100"
    ensures NextIdAfter([a, b], p) == b.id
  {
    CollisionLiterals();
    NextAfterTwo(p, "99", "100", a, b);
  }

  /** The facts about the two tails that the collision needs. */
  lemma CollisionLiterals()
    ensures '-' !in "99" && LexLe("100", "99")
    ensures ParseInt("99") == Some(99) && Pad2(100) == "100"
  {
    ParseNinetyNine();
    PadHundred();
  }

  lemma ParseNinetyNine()
    ensures ParseInt("99") == Some(99)
  {
    TwoDigitsValue(9, 9);
    assert [DigitChar(9), DigitChar(9)] == "99";
    ParseIntOfDigits("99");
  }

  lemma PadHundred()
    ensures Pad2(100) == "100"
  {
    assert NatToString(100) == "100" by {
      assert NatToString(10) == "10";
    }
  }

  lemma TodaysOfTwo(p: string, a: Assessment, b: Assessment)
    requires StartsWith(a.id, p) && StartsWith(b.id, p)
    ensures IdsWithPrefix([a, b], p) == [a.id, b.id]
  {
    assert [a, b][1..] == [b];
    assert [b][1..] == [];
    assert IdsWithPrefix([b], p) == [b.id];
  }

  /** Two identifiers of the day, `prefix + lo` and `prefix + hi`, where `hi` sorts before
      `lo`, `lo` reads as 99 and `hi` is `pad2(100)`: the next identifier is `prefix + hi`. */
  lemma NextAfterTwo(p: string, lo: string, hi: string, a: Assessment, b: Assessment)
    requires DashOnlyAtEnd(p) && '-' !in lo && LexLe(hi, lo)
    requires a.id == p + lo && b.id == p + hi
    requires ParseInt(lo) == Some(99) && Pad2(100) == hi
    ensures NextIdAfter([a, b], p) == b.id
  {
    assert a.id[..|p|] == p && b.id[..|p|] == p;
    TodaysOfTwo(p, a, b);
    var todays := IdsWithPrefix([a, b], p);
    GreaterOfTwo(p, lo, hi, todays);
    NextSequenceOfMax(todays, p, lo, 99);
  }

  lemma GreaterOfTwo(p: string, lo: string, hi: string, todays: seq<string>)
    requires todays == [p + lo, p + hi] && LexLe(hi, lo)
    ensures MaxString(todays) == p + lo
  {
    LexLeCommonPrefix(p, hi, lo);
    LexLeTotal(p + lo, p + lo);
    MaxStringUnique(todays, p + lo);
  }

  /** When the greatest of today's identifiers is `prefix + tail` and `tail` parses as `n`,
      the next sequence number is `n + 1`. */
  lemma NextSequenceOfMax(todays: seq<string>, p: string, tail: string, n: int)
    requires |todays| > 0 && MaxString(todays) == p + tail
    requires DashOnlyAtEnd(p) && '-' !in tail && ParseInt(tail) == Some(n)
    ensures NextSequence(todays) == n + 1
  {
    SequenceAfterTail(p, tail, n);
  }

  /** For any greatest identifier `prefix + tail`, the next sequence number is one past what
      `parseInt` reads from the tail up to its first dash, and 1 when it reads nothing. */
  lemma NextSequenceOfAnyMax(todays: seq<string>, p: string, tail: string)
    requires |todays| > 0 && MaxString(todays) == p + tail
    requires DashOnlyAtEnd(p)
    ensures ParseInt(TakeUntil(tail, '-')).None? ==> NextSequence(todays) == 1
    ensures ParseInt(TakeUntil(tail, '-')).Some? ==> NextSequence(todays) == ParseInt(TakeUntil(tail, '-')).value + 1
  {
    PrefixPiece(p, tail);
  }

  lemma SequenceAfterTail(p: string, tail: string, n: int)
    requires DashOnlyAtEnd(p) && '-' !in tail && ParseInt(tail) == Some(n)
    ensures SequenceAfter(p + tail) == n + 1
  {
    PrefixTail(p, tail);
  }

  /** All of today's identifiers are `prefix + pad2(k)` with k at most `top`. */
  ghost predicate SequencesUpTo(assessments: seq<Assessment>, prefix: string, top: nat)
  {
    forall i :: 0 <= i < |assessments| && StartsWith(assessments[i].id, prefix) ==>
      exists k :: 0 <= k <= top && assessments[i].id == prefix + Pad2(k)
  }

  /** Under `SequencesUpTo` with `top` present, the greatest of today's identifiers is
      `prefix + pad2(top)`. */
  lemma GreatestIsTop(assessments: seq<Assessment>, p: string, top: nat)
    requires top <= 99
    requires SequencesUpTo(assessments, p, top)
    requires exists i :: 0 <= i < |assessments| && assessments[i].id == p + Pad2(top)
    ensures |IdsWithPrefix(assessments, p)| > 0
    ensures MaxString(IdsWithPrefix(assessments, p)) == p + Pad2(top)
  {
    var todays := IdsWithPrefix(assessments, p);
    var i :| 0 <= i < |assessments| && assessments[i].id == p + Pad2(top);
    assert StartsWith(assessments[i].id, p);
    assert assessments[i].id in todays;
    var m := MaxString(todays);
    var j :| 0 <= j < |assessments| && assessments[j].id == m && StartsWith(m, p);
    var km :| 0 <= km <= top && m == p + Pad2(km);
    assert LexLe(p + Pad2(top), m);
    LexLeCommonPrefix(p, Pad2(top), Pad2(km));
    Pad2Order(top, km);
  }

  /** No identifier of the form `prefix + pad2(k)`, k <= top, equals `prefix + pad2(top + 1)`. */
  lemma NextIsFresh(assessments: seq<Assessment>, p: string, top: nat)
    requires top <= 98
    requires SequencesUpTo(assessments, p, top)
    ensures forall i :: 0 <= i < |assessments| ==> assessments[i].id != p + Pad2(top + 1)
  {
    forall i | 0 <= i < |assessments| ensures assessments[i].id != p + Pad2(top + 1) {
      var x := assessments[i].id;
      if x == p + Pad2(top + 1) {
        assert x[..|p|] == p;
        var k :| 0 <= k <= top && x == p + Pad2(k);
        assert Pad2(k) == x[|p|..] == Pad2(top + 1);
        Pad2TwoDigits(k);
        Pad2TwoDigits(top + 1);
      }
    }
  }

  lemma CountsUpAfter(assessments: seq<Assessment>, p: string, top: nat)
    requires DashOnlyAtEnd(p)
    requires top <= 98
    requires SequencesUpTo(assessments, p, top)
    requires top == 0 || exists i :: 0 <= i < |assessments| && assessments[i].id == p + Pad2(top)
    ensures NextIdAfter(assessments, p) == p + Pad2(top + 1)
  {
    var todays := IdsWithPrefix(assessments, p);
    if top == 0 && |todays| == 0 {
      assert Pad2(top + 1) == Pad2(1);
    } else {
      if top == 0 {
        var x := todays[0];
        assert x in todays;
        var i :| 0 <= i < |assessments| && assessments[i].id == x && StartsWith(x, p);
        var k :| 0 <= k <= 0 && assessments[i].id == p + Pad2(k);
      }
      GreatestIsTop(assessments, p, top);
      Pad2TwoDigits(top);
      NextSequenceOfMax(todays, p, Pad2(top), top);
    }
  }

  /** Within two digits the allocator counts up: when today's identifiers are `…-00` to
      `…-top` with `top` present (or there are none and `top` is 0) and `top` is below 99, the
      next identifier is `…-pad2(top + 1)`, and it is new. */
  lemma AllocationCountsUp(assessments: seq<Assessment>, day: nat, month: nat, year: nat, top: nat)
    requires top <= 98
    requires SequencesUpTo(assessments, DatePrefix(day, month, year), top)
    requires top == 0 || exists i :: 0 <= i < |assessments| && assessments[i].id == DatePrefix(day, month, year) + Pad2(top)
    ensures NextStandardId(assessments, day, month, year) == DatePrefix(day, month, year) + Pad2(top + 1)
    ensures forall i :: 0 <= i < |assessments| ==> assessments[i].id != DatePrefix(day, month, year) + Pad2(top + 1)
  {
    DatePrefixDash(day, month, year);
    CountsUpAfter(assessments, DatePrefix(day, month, year), top);
    NextIsFresh(assessments, DatePrefix(day, month, year), top);
  }
}
