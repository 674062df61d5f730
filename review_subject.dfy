/** The subject-method expert's similarity review of one current subject
    (src/module/expert/pages/ReviewSubject.js): a table of topic rows, each
    comparing a topic of the new subject with the matching topics of the past
    subjects and carrying a similarity percentage; the average of the
    percentages decides approval (at least 80). Drafts are kept in browser
    storage under `sme_review_<id>`, modelled here as a map. */
module ReviewSubject {
  import opened Common
  import opened Api

  /** One cell of the past-subject columns. Assigning past the end of the
      JavaScript array leaves holes, which the table renders as ''. A copy
      of the array holds an element where the original had a hole: the
      spread `[...cells]` writes `undefined` and JSON writes `null`.
      `Nullish` is such an element: `ps?.topic` reads it as absent, while
      `ps.topic` throws on it. */
  datatype PastCell = Hole | Nullish | PastTopic(topic: string)

  /** The element a copy (a spread, or the JSON round trip) holds in place
      of `c`: a hole becomes `Nullish`, anything else is kept. */
  function Fill(c: PastCell): (r: PastCell)
    ensures !r.Hole?
    ensures !c.Hole? ==> r == c
    ensures c.Hole? ==> r.Nullish?
  {
    if c.Hole? then Nullish else c
  }

  datatype TopicRow = TopicRow(
    id: int,
    newSubjectTopic: string,
    pastSubjectTopics: seq<PastCell>,
    similarityPercentage: string)

  /** The fields `updateTopic` is called with. */
  datatype TopicField = NewSubjectTopic | SimilarityPercentage

  // ---------------------------------------------------------------------
  // Average similarity

  /** The value a row contributes to the average: its percentage when it
      parses to a number greater than 0. */
  function RowSimilarity(t: TopicRow): (r: Option<real>)
    ensures r.Some? ==> r.value > 0.0
  {
    match ParseFloat(t.similarityPercentage)
    case Some(v) => if v > 0.0 then Some(v) else None
    case None => None
  }

  /** `topics.map(parseFloat).filter(sim => !isNaN(sim) && sim > 0)`. */
  function Similarities(rows: seq<TopicRow>): (r: seq<real>)
    ensures |r| <= |rows|
    ensures forall v :: v in r ==> v > 0.0
  {
    CollectFrom(rows, RowSimilarity);
    Collect(rows, RowSimilarity)
  }

  function Sum(xs: seq<real>): real {
    if xs == [] then 0.0 else xs[0] + Sum(xs[1..])
  }

  function Mean(xs: seq<real>): real
    requires xs != []
  {
    Sum(xs) / |xs| as real
  }

  function MinOf(xs: seq<real>): (m: real)
    requires xs != []
    ensures m in xs && forall i :: 0 <= i < |xs| ==> m <= xs[i]
  {
    if |xs| == 1 then xs[0]
    else var m := MinOf(xs[1..]); if xs[0] <= m then xs[0] else m
  }

  function MaxOf(xs: seq<real>): (m: real)
    requires xs != []
    ensures m in xs && forall i :: 0 <= i < |xs| ==> xs[i] <= m
  {
    if |xs| == 1 then xs[0]
    else var m := MaxOf(xs[1..]); if xs[0] >= m then xs[0] else m
  }

  /** `Math.round(x * 10) / 10`: one decimal, halves rounded up. */
  function Round1(x: real): real {
    Round(x * 10.0) as real / 10.0
  }

  /** `calculateAverage`: 0 for an empty table or when no row has a positive
      number; otherwise the mean of the positive numbers, to one decimal. */
  function CalculateAverage(rows: seq<TopicRow>): (avg: real)
    ensures Similarities(rows) == [] ==> avg == 0.0
    ensures rows == [] ==> avg == 0.0
  {
    if rows == [] then 0.0
    else
      var sims := Similarities(rows);
      if sims == [] then 0.0 else Round1(Mean(sims))
  }

  lemma {:induction false} SumBounds(xs: seq<real>, lo: real, hi: real)
    requires forall i :: 0 <= i < |xs| ==> lo <= xs[i] <= hi
    ensures |xs| as real * lo <= Sum(xs) <= |xs| as real * hi
  {
    if xs != [] {
      var k := |xs[1..]| as real;
      SumBounds(xs[1..], lo, hi);
      assert |xs| as real * lo == k * lo + lo;
      assert |xs| as real * hi == k * hi + hi;
    }
  }

  lemma MeanWithin(xs: seq<real>, lo: real, hi: real)
    requires xs != []
    requires forall i :: 0 <= i < |xs| ==> lo <= xs[i] <= hi
    ensures lo <= Mean(xs) <= hi
  {
    SumBounds(xs, lo, hi);
    DivBetween(Sum(xs), |xs| as real, lo, hi);
  }

  /** The unrounded mean lies between the smallest and the largest counted
      percentage. */
  lemma MeanBetween(xs: seq<real>)
    requires xs != []
    ensures MinOf(xs) <= Mean(xs) <= MaxOf(xs)
  {
    MeanWithin(xs, MinOf(xs), MaxOf(xs));
  }

  /** Rounding to one decimal moves a value by at most 0.05. */
  lemma Round1Close(x: real)
    ensures x - 0.05 < Round1(x) <= x + 0.05
  {
    var r := Round(x * 10.0);
    assert x * 10.0 - 0.5 < r as real <= x * 10.0 + 0.5;
  }

  /** Every counted percentage is positive, so their mean is too. */
  lemma MeanOfSimilaritiesPositive(rows: seq<TopicRow>)
    requires Similarities(rows) != []
    ensures Mean(Similarities(rows)) > 0.0
  {
    var sims := Similarities(rows);
    MeanBetween(sims);
    assert MinOf(sims) in sims;
  }

  /** The average is 0 exactly when no row counts, or when the counted mean
      is below 0.05 (it then rounds to 0). */
  lemma AverageZeroIff(rows: seq<TopicRow>)
    ensures CalculateAverage(rows) == 0.0 <==>
              (Similarities(rows) == [] || Mean(Similarities(rows)) < 0.05)
  {
    var sims := Similarities(rows);
    if sims != [] {
      assert rows != [];
      MeanOfSimilaritiesPositive(rows);
      var m := Mean(sims);
      var r := Round(m * 10.0);
      if m < 0.05 {
        assert m * 10.0 + 0.5 < 1.0;
        assert r == 0;
      } else {
        assert m * 10.0 + 0.5 >= 1.0;
        assert r >= 1;
      }
    }
  }

  /** The average lies within rounding distance of the range of the counted
      percentages, and is never negative. */
  lemma AverageBounds(rows: seq<TopicRow>)
    requires Similarities(rows) != []
    ensures var sims := Similarities(rows);
            MinOf(sims) - 0.05 < CalculateAverage(rows) <= MaxOf(sims) + 0.05
    ensures CalculateAverage(rows) >= 0.0
  {
    var sims := Similarities(rows);
    var m := Mean(sims);
    assert CalculateAverage(rows) == Round1(m);
    MeanBetween(sims);
    MeanOfSimilaritiesPositive(rows);
    Round1Close(m);
    Round1NonNegative(m);
  }

  lemma Round1NonNegative(x: real)
    requires x >= 0.0
    ensures Round1(x) >= 0.0
  {
    var r := Round(x * 10.0);
    assert x * 10.0 >= 0.0;
    assert r >= 0;
  }

  lemma Round1Percent(m: real)
    requires 0.0 <= m <= 100.0
    ensures 0.0 <= Round1(m) <= 100.0
  {
    var r := Round(m * 10.0);
    assert r as real <= 1000.5;
    assert r <= 1000;
  }

  /** When every row's percentage is a number in [0, 100], the average is in
      [0, 100]. */
  lemma AverageInRange(rows: seq<TopicRow>)
    requires forall i :: 0 <= i < |rows| ==> ValidPercentage(rows[i].similarityPercentage)
    ensures 0.0 <= CalculateAverage(rows) <= 100.0
  {
    var sims := Similarities(rows);
    if sims != [] {
      SimilaritiesAtMost(rows, 100.0);
      forall i | 0 <= i < |sims| ensures 0.0 <= sims[i] <= 100.0 {
        assert sims[i] in sims;
      }
      MeanWithin(sims, 0.0, 100.0);
      Round1Percent(Mean(sims));
    }
  }

  lemma SimilaritiesAtMost(rows: seq<TopicRow>, hi: real)
    requires forall i :: 0 <= i < |rows| ==>
               ParseFloat(rows[i].similarityPercentage).Some? &&
               ParseFloat(rows[i].similarityPercentage).value <= hi
    ensures forall v :: v in Similarities(rows) ==> v <= hi
  {
    CollectFrom(rows, RowSimilarity);
    forall v | v in Similarities(rows) ensures v <= hi {
      var t :| t in rows && RowSimilarity(t) == Some(v);
      var i :| 0 <= i < |rows| && rows[i] == t;
    }
  }

  lemma SimilaritiesConcat(a: seq<TopicRow>, b: seq<TopicRow>)
    ensures Similarities(a + b) == Similarities(a) + Similarities(b)
  {
    CollectConcat(a, b, RowSimilarity);
  }

  /** Rows that agree on their percentage contribute the same values. */
  lemma SimilaritiesSamePercentages(a: seq<TopicRow>, b: seq<TopicRow>)
    requires |a| == |b|
    requires forall i :: 0 <= i < |a| ==> a[i].similarityPercentage == b[i].similarityPercentage
    ensures Similarities(a) == Similarities(b)
  {
    CollectPointwise(a, b, RowSimilarity, RowSimilarity);
  }

  lemma AverageSamePercentages(a: seq<TopicRow>, b: seq<TopicRow>)
    requires |a| == |b|
    requires forall i :: 0 <= i < |a| ==> a[i].similarityPercentage == b[i].similarityPercentage
    ensures CalculateAverage(a) == CalculateAverage(b)
  {
    SimilaritiesSamePercentages(a, b);
  }

  // ---------------------------------------------------------------------
  // Row editing

  /** The number of past-topic cells of a new row:
      `subjectData?.pastSubjects?.length || 1`. */
  function CellCount(pastSubjectsCount: Option<nat>): (n: nat)
    ensures n >= 1
    ensures pastSubjectsCount.Some? && pastSubjectsCount.value > 0 ==> n == pastSubjectsCount.value
  {
    if pastSubjectsCount.Some? && pastSubjectsCount.value > 0 then pastSubjectsCount.value else 1
  }

  function BlankRow(id: int, cells: nat): (t: TopicRow)
    ensures |t.pastSubjectTopics| == cells
  {
    TopicRow(id, "", seq(cells, _ => PastTopic("")), "")
  }

  /** `addTopicRow`: appends one blank row with one empty past-topic cell
      per past subject (one when there is none) and an empty percentage. */
  function AddTopicRow(rows: seq<TopicRow>, pastSubjectsCount: Option<nat>, id: int): (r: seq<TopicRow>)
    ensures |r| == |rows| + 1 && r[..|rows|] == rows
    ensures r[|rows|].id == id && r[|rows|].newSubjectTopic == "" && r[|rows|].similarityPercentage == ""
    ensures |r[|rows|].pastSubjectTopics| == CellCount(pastSubjectsCount)
    ensures forall k :: 0 <= k < |r[|rows|].pastSubjectTopics| ==> r[|rows|].pastSubjectTopics[k] == PastTopic("")
  {
    rows + [BlankRow(id, CellCount(pastSubjectsCount))]
  }

  /** A blank row does not change the average. */
  lemma AddTopicRowKeepsAverage(rows: seq<TopicRow>, pastSubjectsCount: Option<nat>, id: int)
    ensures CalculateAverage(AddTopicRow(rows, pastSubjectsCount, id)) == CalculateAverage(rows)
  {
    var b := BlankRow(id, CellCount(pastSubjectsCount));
    SimilaritiesConcat(rows, [b]);
    assert ParseFloat("").None?;
    assert Similarities([b]) == [];
    assert Similarities(rows + [b]) == Similarities(rows);
  }

  /** `removeTopicRow`: keeps the rows with another id, in order. */
  function RemoveTopicRow(rows: seq<TopicRow>, id: int): (r: seq<TopicRow>)
    ensures forall t :: t in r <==> t in rows && t.id != id
  {
    var r := Filter(rows, (t: TopicRow) => t.id != id);
    assert forall t :: t in r <==> t in rows && t.id != id by {
      forall t ensures t in r <==> t in rows && t.id != id {
        FilterMembers(rows, (t: TopicRow) => t.id != id, t);
      }
    }
    r
  }

  /** Removal works piecewise, so the remaining rows keep their order. */
  lemma RemoveTopicRowConcat(a: seq<TopicRow>, b: seq<TopicRow>, id: int)
    ensures RemoveTopicRow(a + b, id) == RemoveTopicRow(a, id) + RemoveTopicRow(b, id)
    ensures RemoveTopicRow([], id) == []
    ensures forall t :: RemoveTopicRow([t], id) == if t.id == id then [] else [t]
  {
    FilterConcat(a, b, (t: TopicRow) => t.id != id);
  }

  function WithField(t: TopicRow, field: TopicField, value: string): TopicRow {
    match field
    case NewSubjectTopic => t.(newSubjectTopic := value)
    case SimilarityPercentage => t.(similarityPercentage := value)
  }

  /** `updateTopic`: sets one field of the rows carrying the id. */
  function UpdateTopic(rows: seq<TopicRow>, id: int, field: TopicField, value: string): (r: seq<TopicRow>)
    ensures |r| == |rows|
    ensures forall i :: 0 <= i < |rows| && rows[i].id != id ==> r[i] == rows[i]
    ensures forall i :: 0 <= i < |rows| && rows[i].id == id ==>
              r[i].id == id && r[i].pastSubjectTopics == rows[i].pastSubjectTopics &&
              (field == NewSubjectTopic ==> r[i].newSubjectTopic == value &&
                                            r[i].similarityPercentage == rows[i].similarityPercentage) &&
              (field == SimilarityPercentage ==> r[i].similarityPercentage == value &&
                                                 r[i].newSubjectTopic == rows[i].newSubjectTopic)
  {
    seq(|rows|, i requires 0 <= i < |rows| => if rows[i].id == id then WithField(rows[i], field, value) else rows[i])
  }

  /** Editing the new-subject topic leaves the average where it was. */
  lemma UpdateTopicTextKeepsAverage(rows: seq<TopicRow>, id: int, value: string)
    ensures CalculateAverage(UpdateTopic(rows, id, NewSubjectTopic, value)) == CalculateAverage(rows)
  {
    AverageSamePercentages(UpdateTopic(rows, id, NewSubjectTopic, value), rows);
  }

  /** `updatedPastSubjects[index] = { topic: value }` on the spread copy
      of the cells: the copy has no holes, and an index past the end pads
      it with new ones. */
  function SetCell(cells: seq<PastCell>, index: nat, value: string): (r: seq<PastCell>)
    ensures |r| == if index < |cells| then |cells| else index + 1
    ensures r[index] == PastTopic(value)
    ensures forall k :: 0 <= k < |cells| && k != index ==> r[k] == Fill(cells[k])
    ensures forall k :: |cells| <= k < index ==> r[k] == Hole
  {
    var copy := seq(|cells|, k requires 0 <= k < |cells| => Fill(cells[k]));
    if index < |cells| then copy[index := PastTopic(value)]
    else copy + seq(index - |cells|, _ => Hole) + [PastTopic(value)]
  }

  /** Where the cells have no holes, as in every row the page creates, an
      edit is a plain assignment. */
  lemma SetCellWithoutHoles(cells: seq<PastCell>, index: nat, value: string)
    requires forall k :: 0 <= k < |cells| ==> !cells[k].Hole?
    requires index < |cells|
    ensures SetCell(cells, index, value) == cells[index := PastTopic(value)]
  {
    var r := SetCell(cells, index, value);
    forall k | 0 <= k < |cells|
      ensures r[k] == cells[index := PastTopic(value)][k]
    {
      if k != index {
        assert r[k] == Fill(cells[k]);
      }
    }
  }

  /** Two edits past the end of a one-cell row: the first leaves a hole at
      index 1, and the copy made by the second turns it into `undefined`. */
  lemma SecondEditFillsHole(a: string, b: string)
    ensures SetCell(SetCell([PastTopic("")], 2, a), 2, b) == [PastTopic(""), Nullish, PastTopic(b)]
  {
    var once := SetCell([PastTopic("")], 2, a);
    assert once == [PastTopic(""), Hole, PastTopic(a)];
    var twice := SetCell(once, 2, b);
    assert twice[0] == PastTopic("") && twice[1] == Nullish && twice[2] == PastTopic(b);
  }

  /** `updatePastSubjectTopic`: sets one past-topic cell of the rows carrying
      the id. */
  function UpdatePastSubjectTopic(rows: seq<TopicRow>, id: int, index: nat, value: string): (r: seq<TopicRow>)
    ensures |r| == |rows|
    ensures forall i :: 0 <= i < |rows| && rows[i].id != id ==> r[i] == rows[i]
    ensures forall i :: 0 <= i < |rows| && rows[i].id == id ==>
              r[i] == rows[i].(pastSubjectTopics := SetCell(rows[i].pastSubjectTopics, index, value))
  {
    seq(|rows|, i requires 0 <= i < |rows| =>
      if rows[i].id == id then rows[i].(pastSubjectTopics := SetCell(rows[i].pastSubjectTopics, index, value))
      else rows[i])
  }

  lemma UpdatePastSubjectTopicKeepsAverage(rows: seq<TopicRow>, id: int, index: nat, value: string)
    ensures CalculateAverage(UpdatePastSubjectTopic(rows, id, index, value)) == CalculateAverage(rows)
  {
    AverageSamePercentages(UpdatePastSubjectTopic(rows, id, index, value), rows);
  }

  // ---------------------------------------------------------------------
  // Submit

  /** The per-row check of `handleSubmit`: present, a number, in [0, 100]. */
  predicate ValidPercentage(s: string) {
    s != "" && ParseFloat(s).Some? && 0.0 <= ParseFloat(s).value <= 100.0
  }

  datatype SubmitCheck = NoTopics | InvalidPercentages | ZeroAverage | Ready

  /** The guards of `handleSubmit`, in order, against the page's
      `averageSimilarity`. */
  function CheckSubmit(rows: seq<TopicRow>, averageSimilarity: real): (c: SubmitCheck)
    ensures c == NoTopics <==> rows == []
    ensures c == InvalidPercentages <==>
              rows != [] && exists i :: 0 <= i < |rows| && !ValidPercentage(rows[i].similarityPercentage)
    ensures c == Ready ==> averageSimilarity != 0.0 &&
                           forall i :: 0 <= i < |rows| ==> ValidPercentage(rows[i].similarityPercentage)
  {
    if rows == [] then NoTopics
    else if exists i :: 0 <= i < |rows| && !ValidPercentage(rows[i].similarityPercentage) then InvalidPercentages
    else if averageSimilarity == 0.0 then ZeroAverage
    else Ready
  }

  /** With the page's average in step with its rows, a submittable table has
      at least one row with a positive percentage and an average in
      (0, 100]. */
  lemma ReadyMeansCountedRows(rows: seq<TopicRow>)
    requires CheckSubmit(rows, CalculateAverage(rows)) == Ready
    ensures Similarities(rows) != []
    ensures 0.0 < CalculateAverage(rows) <= 100.0
  {
    AverageInRange(rows);
  }

  /** A row at exactly 0 passes the submit check but is left out of the
      average. */
  lemma ZeroRowValidButUncounted(t: TopicRow)
    requires t.similarityPercentage == "0"
    ensures ValidPercentage(t.similarityPercentage)
    ensures RowSimilarity(t).None?
    ensures Similarities([t]) == []
  {
    ParseFloatOfNatToString(0);
    assert NatToString(0) == "0";
  }

  /** The approval threshold applied to the submitted average. */
  predicate IsApproval(averageSimilarity: real) {
    averageSimilarity >= 80.0
  }

  /** Some row holds a `Nullish` past-topic cell. */
  predicate HasNullishCell(rows: seq<TopicRow>) {
    exists i, k :: 0 <= i < |rows| && 0 <= k < |rows[i].pastSubjectTopics| && rows[i].pastSubjectTopics[k].Nullish?
  }

  datatype TopicPayload = TopicPayload(newSubjectTopic: string, pastSubjectTopics: seq<PastCell>, similarityPercentage: real)

  datatype ReviewData = ReviewData(similarityPercentage: real, smeReviewNotes: string, topicsComparison: seq<TopicPayload>)

  /** The `reviewData` body sent once the checks pass. Mapping the cells
      with `ps => ({ topic: ps.topic })` keeps holes (the map skips them)
      and throws on a `Nullish` cell, so there is no body (None) exactly
      when some cell is `Nullish`. */
  function ReviewPayload(rows: seq<TopicRow>, averageSimilarity: real, notes: string): (d: Option<ReviewData>)
    requires forall i :: 0 <= i < |rows| ==> ValidPercentage(rows[i].similarityPercentage)
    ensures d.None? <==> HasNullishCell(rows)
    ensures d.Some? ==> d.value.similarityPercentage == averageSimilarity && d.value.smeReviewNotes == notes
    ensures d.Some? ==> |d.value.topicsComparison| == |rows|
    ensures d.Some? ==> forall i :: 0 <= i < |rows| ==>
              d.value.topicsComparison[i].newSubjectTopic == rows[i].newSubjectTopic &&
              d.value.topicsComparison[i].pastSubjectTopics == rows[i].pastSubjectTopics &&
              Some(d.value.topicsComparison[i].similarityPercentage) == ParseFloat(rows[i].similarityPercentage) &&
              0.0 <= d.value.topicsComparison[i].similarityPercentage <= 100.0
  {
    if HasNullishCell(rows) then None
    else
      Some(ReviewData(averageSimilarity, notes,
        seq(|rows|, i requires 0 <= i < |rows| && ValidPercentage(rows[i].similarityPercentage) =>
          TopicPayload(rows[i].newSubjectTopic, rows[i].pastSubjectTopics, ParseFloat(rows[i].similarityPercentage).value))))
  }

  // ---------------------------------------------------------------------
  // Drafts

  /** What `JSON.parse` gives back for a stored draft; `topics` and
      `smeNotes` may be absent. */
  datatype Draft = Draft(topics: Option<seq<TopicRow>>, smeNotes: Option<string>, averageSimilarity: real, savedAt: Option<int>)

  function StorageKey(applicationSubjectId: string): string {
    "sme_review_" + applicationSubjectId
  }

  /** Different subjects never share a draft. */
  lemma StorageKeyInjective(a: string, b: string)
    requires StorageKey(a) == StorageKey(b)
    ensures a == b
  {
    var p := "sme_review_";
    assert a == StorageKey(a)[|p|..];
    assert b == StorageKey(b)[|p|..];
  }

  predicate CellHasContent(c: PastCell) {
    c.PastTopic? && !IsBlank(c.topic)
  }

  /** A row with a non-blank new topic, past topic or percentage. */
  predicate RowHasContent(t: TopicRow) {
    !IsBlank(t.newSubjectTopic) ||
    (exists k :: 0 <= k < |t.pastSubjectTopics| && CellHasContent(t.pastSubjectTopics[k])) ||
    !IsBlank(t.similarityPercentage)
  }

  /** `s.some(test)` for a test that may throw: the test answers Some(b) or
      throws (None). The scan stops at the first true answer; a throw
      before it ends the whole scan with a throw. */
  function AnyOf<T>(s: seq<T>, test: T -> Option<bool>): Option<bool> {
    if s == [] then Some(false)
    else match test(s[0])
      case None => None
      case Some(true) => Some(true)
      case Some(false) => AnyOf(s[1..], test)
  }

  /** A true answer comes from an element whose test answered true. */
  lemma {:induction false} AnyOfTrue<T>(s: seq<T>, test: T -> Option<bool>)
    ensures AnyOf(s, test) == Some(true) ==> exists i :: 0 <= i < |s| && test(s[i]) == Some(true)
  {
    if s != [] && test(s[0]) == Some(false) {
      AnyOfTrue(s[1..], test);
      if AnyOf(s, test) == Some(true) {
        var i :| 0 <= i < |s[1..]| && test(s[1..][i]) == Some(true);
        assert s[i + 1] == s[1..][i];
      }
    }
  }

  /** When the test never throws, the scan is the plain existential. */
  lemma {:induction false} AnyOfTotal<T>(s: seq<T>, test: T -> Option<bool>, p: T -> bool)
    requires forall i :: 0 <= i < |s| ==> test(s[i]) == Some(p(s[i]))
    ensures AnyOf(s, test) == Some(exists i :: 0 <= i < |s| && p(s[i]))
  {
    if s != [] {
      AnyOfTotal(s[1..], test, p);
      if !p(s[0]) {
        assert (exists i :: 0 <= i < |s| && p(s[i])) == (exists i :: 0 <= i < |s[1..]| && p(s[1..][i])) by {
          forall i | 0 < i < |s| ensures s[i] == s[1..][i - 1] { }
        }
      }
    }
  }

  /** `ps.topic?.trim()` on a stored cell: `some` skips a hole, and reading
      `.topic` of a `null` cell throws. */
  function CellTest(c: PastCell): Option<bool> {
    match c
    case Hole => Some(false)
    case Nullish => None
    case PastTopic(topic) => Some(!IsBlank(topic))
  }

  /** The content test of the restore effect for one stored row, with the
      short-circuit of its `||`. */
  function RowTest(t: TopicRow): Option<bool> {
    if !IsBlank(t.newSubjectTopic) then Some(true)
    else match AnyOf(t.pastSubjectTopics, CellTest)
      case None => None
      case Some(true) => Some(true)
      case Some(false) => Some(!IsBlank(t.similarityPercentage))
  }

  /** Without `Nullish` cells the restore test of a row is `RowHasContent`. */
  lemma RowTestWithoutNullish(t: TopicRow)
    requires forall k :: 0 <= k < |t.pastSubjectTopics| ==> !t.pastSubjectTopics[k].Nullish?
    ensures RowTest(t) == Some(RowHasContent(t))
  {
    AnyOfTotal(t.pastSubjectTopics, CellTest, CellHasContent);
  }

  /** A stored row whose new topic is blank and whose first cell is `null`
      makes the restore test throw. */
  lemma NullFirstCellThrows(t: TopicRow)
    requires IsBlank(t.newSubjectTopic) && |t.pastSubjectTopics| > 0 && t.pastSubjectTopics[0].Nullish?
    ensures RowTest(t).None?
  {
  }

  /** A stored draft is restored only when it has a non-empty topics list
      whose content test, run row by row, answers true; a test that throws
      is caught and restores nothing. */
  predicate ShouldRestore(d: Draft) {
    d.topics.Some? && |d.topics.value| > 0 && AnyOf(d.topics.value, RowTest) == Some(true)
  }

  /** A restored draft has some row with content. */
  lemma RestoredDraftHasContent(d: Draft)
    requires ShouldRestore(d)
    ensures exists i :: 0 <= i < |d.topics.value| && RowTest(d.topics.value[i]) == Some(true)
  {
    AnyOfTrue(d.topics.value, RowTest);
  }

  /** A draft without `null` cells is restored exactly when it has a row
      with content. */
  lemma ShouldRestoreWithoutNullish(d: Draft)
    requires d.topics.Some? && !HasNullishCell(d.topics.value)
    ensures ShouldRestore(d) <==>
              |d.topics.value| > 0 && exists i :: 0 <= i < |d.topics.value| && RowHasContent(d.topics.value[i])
  {
    var ts := d.topics.value;
    forall i | 0 <= i < |ts| ensures RowTest(ts[i]) == Some(RowHasContent(ts[i])) {
      RowTestWithoutNullish(ts[i]);
    }
    AnyOfTotal(ts, RowTest, RowHasContent);
  }

  lemma BlankRowHasNoContent(id: int, cells: nat)
    ensures !RowHasContent(BlankRow(id, cells))
    ensures RowTest(BlankRow(id, cells)) == Some(false)
  {
    var t := BlankRow(id, cells);
    EmptyIsBlank();
    assert t.newSubjectTopic == "" && t.similarityPercentage == "";
    forall k | 0 <= k < |t.pastSubjectTopics| ensures !CellHasContent(t.pastSubjectTopics[k]) && !t.pastSubjectTopics[k].Nullish? {
      assert t.pastSubjectTopics[k] == PastTopic("");
    }
    assert !(exists k :: 0 <= k < |t.pastSubjectTopics| && CellHasContent(t.pastSubjectTopics[k]));
    RowTestWithoutNullish(t);
  }

  /** A table of blank rows is never restored. */
  lemma BlankDraftNotRestored(d: Draft, id: int, cells: nat, n: nat)
    requires d.topics == Some(seq(n, _ => BlankRow(id, cells)))
    ensures !ShouldRestore(d)
  {
    var ts := d.topics.value;
    forall i | 0 <= i < |ts| ensures RowTest(ts[i]) == Some(false) {
      assert ts[i] == BlankRow(id, cells);
      BlankRowHasNoContent(id, cells);
    }
    AnyOfTotal(ts, RowTest, (t: TopicRow) => false);
  }

  /** The rows as `JSON.stringify` writes them and `JSON.parse` reads them
      back: every hole comes back as `null`. */
  function JsonRows(rows: seq<TopicRow>): (r: seq<TopicRow>)
    ensures |r| == |rows|
    ensures forall i :: 0 <= i < |rows| ==>
              r[i].id == rows[i].id && r[i].newSubjectTopic == rows[i].newSubjectTopic &&
              r[i].similarityPercentage == rows[i].similarityPercentage &&
              |r[i].pastSubjectTopics| == |rows[i].pastSubjectTopics| &&
              forall k :: 0 <= k < |rows[i].pastSubjectTopics| ==> r[i].pastSubjectTopics[k] == Fill(rows[i].pastSubjectTopics[k])
  {
    seq(|rows|, i requires 0 <= i < |rows| =>
      rows[i].(pastSubjectTopics := seq(|rows[i].pastSubjectTopics|, k requires 0 <= k < |rows[i].pastSubjectTopics| => Fill(rows[i].pastSubjectTopics[k]))))
  }

  /** Rows without holes survive the round trip unchanged. */
  lemma JsonRowsWithoutHoles(rows: seq<TopicRow>)
    requires forall i, k :: 0 <= i < |rows| && 0 <= k < |rows[i].pastSubjectTopics| ==> !rows[i].pastSubjectTopics[k].Hole?
    ensures JsonRows(rows) == rows
  {
    var r := JsonRows(rows);
    forall i | 0 <= i < |rows| ensures r[i] == rows[i] {
      assert r[i].pastSubjectTopics == rows[i].pastSubjectTopics;
    }
  }

  /** The draft the mount effect restores: the one stored under the
      subject's key, when there is a subject id and the draft has content. */
  function DraftToRestore(storage: map<string, Draft>, applicationSubjectId: string): (d: Option<Draft>)
    ensures d.Some? <==> applicationSubjectId != "" && StorageKey(applicationSubjectId) in storage &&
                         ShouldRestore(storage[StorageKey(applicationSubjectId)])
    ensures d.Some? ==> d.value == storage[StorageKey(applicationSubjectId)] && d.value.topics.Some?
  {
    var key := StorageKey(applicationSubjectId);
    if applicationSubjectId != "" && key in storage && ShouldRestore(storage[key]) then Some(storage[key])
    else None
  }

  /** The autosave guard: a subject id, restoring finished, and at least one
      row or non-blank notes. */
  predicate ShouldAutosave(applicationSubjectId: string, isRestoring: bool, topics: seq<TopicRow>, notes: string) {
    applicationSubjectId != "" && !isRestoring && (|topics| > 0 || !IsBlank(notes))
  }

  /** How `handleSubmit` ends: refused by a check, thrown while building
      the body, the server's failure message, or the review recorded with
      the past-subject count and the average its alert shows. */
  datatype SubmitResult =
    | Refused(reason: SubmitCheck)
    | PayloadThrew
    | SubmitFailed(message: string)
    | ReviewApproved(pastSubjects: nat, average: real)
    | ReviewRejected(pastSubjects: nat, average: real)

  /** Where the page goes once a review is recorded, and when the subject
      cannot be loaded. */
  const AssignmentsPath := "/expert/assignments"

  /** The page state of one review: the table, the notes, the average shown,
      the restore flags and the draft store. */
  class ReviewPage {
    const applicationSubjectId: string
    var topics: seq<TopicRow>
    var smeNotes: string
    var averageSimilarity: real
    var isRestoring: bool
    var hasRestoredFromStorage: bool
    var submitting: bool
    /** `subjectData?.pastSubjects?.length`, None before the details load. */
    var pastSubjectsCount: Option<nat>
    /** Browser storage: key to draft. */
    var storage: map<string, Draft>
    /** Source of `Date.now()` ids. */
    var nextId: int

    /** The average shown is always the average of the table. */
    ghost predicate Valid()
      reads this
    {
      averageSimilarity == CalculateAverage(topics)
    }

    constructor (applicationSubjectId: string, storage: map<string, Draft>, now: int)
      ensures Valid()
      ensures this.applicationSubjectId == applicationSubjectId && this.storage == storage
      ensures topics == [] && smeNotes == "" && averageSimilarity == 0.0
      ensures isRestoring && !hasRestoredFromStorage && !submitting && pastSubjectsCount.None?
      ensures nextId == now
    {
      this.applicationSubjectId := applicationSubjectId;
      this.storage := storage;
      topics := [];
      smeNotes := "";
      averageSimilarity := 0.0;
      isRestoring := true;
      hasRestoredFromStorage := false;
      submitting := false;
      pastSubjectsCount := None;
      nextId := now;
    }

    /** Takes over a draft that has content: its rows, its notes (or ""),
        and the average of its rows. */
    method ApplyDraft(draft: Draft)
      requires draft.topics.Some?
      modifies this`topics, this`smeNotes, this`averageSimilarity, this`hasRestoredFromStorage
      ensures Valid()
      ensures topics == draft.topics.value && smeNotes == draft.smeNotes.GetOr("") && hasRestoredFromStorage
    {
      topics := draft.topics.value;
      smeNotes := draft.smeNotes.GetOr("");
      averageSimilarity := CalculateAverage(topics);
      hasRestoredFromStorage := true;
    }

    /** The mount effect: restore a stored draft that has content, and end
      restoring either way. */
    method Restore()
      requires Valid()
      modifies this`topics, this`smeNotes, this`averageSimilarity, this`hasRestoredFromStorage, this`isRestoring
      ensures Valid()
      ensures !isRestoring
      ensures DraftToRestore(storage, applicationSubjectId).Some? ==>
                topics == DraftToRestore(storage, applicationSubjectId).value.topics.value
                && smeNotes == DraftToRestore(storage, applicationSubjectId).value.smeNotes.GetOr("")
                && hasRestoredFromStorage
      ensures DraftToRestore(storage, applicationSubjectId).None? ==>
                topics == old(topics) && smeNotes == old(smeNotes)
                && hasRestoredFromStorage == old(hasRestoredFromStorage)
    {
      var d := DraftToRestore(storage, applicationSubjectId);
      if d.Some? {
        ApplyDraft(d.value);
      }
      isRestoring := false;
    }

    /** `loadSubjectDetails`. `res` carries the number of past subjects
      (None when the answer has no list). On success the count is recorded
      and one blank row is seeded when nothing was restored and the table
      is empty; a failure alerts and leaves for the assignments list. */
    method LoadSubjectDetails(res: Reply<Option<nat>>) returns (alert: Option<string>, navigateTo: Option<string>)
      requires Valid()
      modifies this
      ensures Valid()
      ensures res.Success? ==> pastSubjectsCount == res.data && alert.None? && navigateTo.None?
      ensures res.Failure? ==>
                pastSubjectsCount == old(pastSubjectsCount) &&
                alert == Some(OrElse(Some(res.message), "Failed to load subject details")) &&
                navigateTo == Some(AssignmentsPath)
      ensures if res.Success? && !old(hasRestoredFromStorage) && old(topics) == [] &&
                 res.data.Some? && res.data.value > 0
              then topics == [BlankRow(old(nextId), res.data.value)] && nextId == old(nextId) + 1
              else topics == old(topics) && nextId == old(nextId)
      ensures smeNotes == old(smeNotes) && storage == old(storage) && isRestoring == old(isRestoring)
      ensures hasRestoredFromStorage == old(hasRestoredFromStorage) && submitting == old(submitting)
    {
      alert, navigateTo := None, None;
      if res.Success? {
        var pastSubjects := res.data;
        pastSubjectsCount := pastSubjects;
        if !hasRestoredFromStorage && topics == [] && pastSubjects.Some? && pastSubjects.value > 0 {
          topics := [BlankRow(nextId, pastSubjects.value)];
          AddTopicRowKeepsAverage([], pastSubjects, nextId);
          assert topics == AddTopicRow([], pastSubjects, nextId);
          nextId := nextId + 1;
        }
      } else {
        alert := Some(OrElse(Some(res.message), "Failed to load subject details"));
        navigateTo := Some(AssignmentsPath);
      }
    }

    /** The debounced autosave effect: a guarded write of the current table
      (as JSON gives it back), notes and average under the subject's key. */
    method Autosave(now: int)
      requires Valid()
      modifies this`storage
      ensures ShouldAutosave(applicationSubjectId, isRestoring, topics, smeNotes) ==>
                storage == old(storage)[StorageKey(applicationSubjectId) :=
                                          Draft(Some(JsonRows(topics)), Some(smeNotes), averageSimilarity, Some(now))]
      ensures !ShouldAutosave(applicationSubjectId, isRestoring, topics, smeNotes) ==> storage == old(storage)
    {
      if ShouldAutosave(applicationSubjectId, isRestoring, topics, smeNotes) {
        storage := storage[StorageKey(applicationSubjectId) :=
                             Draft(Some(JsonRows(topics)), Some(smeNotes), averageSimilarity, Some(now))];
      }
    }

    /** The `beforeunload` save: the same write, without the restoring
      check. */
    method SaveBeforeUnload(now: int)
      requires Valid()
      modifies this`storage
      ensures applicationSubjectId != "" && (|topics| > 0 || !IsBlank(smeNotes)) ==>
                storage == old(storage)[StorageKey(applicationSubjectId) :=
                                          Draft(Some(JsonRows(topics)), Some(smeNotes), averageSimilarity, Some(now))]
      ensures !(applicationSubjectId != "" && (|topics| > 0 || !IsBlank(smeNotes))) ==> storage == old(storage)
    {
      if applicationSubjectId != "" && (|topics| > 0 || !IsBlank(smeNotes)) {
        storage := storage[StorageKey(applicationSubjectId) :=
                             Draft(Some(JsonRows(topics)), Some(smeNotes), averageSimilarity, Some(now))];
      }
    }

    method AddRow()
      requires Valid()
      modifies this`topics, this`nextId
      ensures Valid()
      ensures topics == AddTopicRow(old(topics), pastSubjectsCount, old(nextId))
      ensures nextId == old(nextId) + 1
    {
      AddTopicRowKeepsAverage(topics, pastSubjectsCount, nextId);
      topics := AddTopicRow(topics, pastSubjectsCount, nextId);
      nextId := nextId + 1;
    }

    method RemoveRow(id: int)
      modifies this`topics, this`averageSimilarity
      ensures Valid()
      ensures topics == RemoveTopicRow(old(topics), id)
    {
      topics := RemoveTopicRow(topics, id);
      averageSimilarity := CalculateAverage(topics);
    }

    /** `updateTopic`; the average is recomputed only for the percentage
      field, and stays in step for the other. */
    method EditTopic(id: int, field: TopicField, value: string)
      requires Valid()
      modifies this`topics, this`averageSimilarity
      ensures Valid()
      ensures topics == UpdateTopic(old(topics), id, field, value)
      ensures field == NewSubjectTopic ==> averageSimilarity == old(averageSimilarity)
    {
      var updated := UpdateTopic(topics, id, field, value);
      if field == SimilarityPercentage {
        averageSimilarity := CalculateAverage(updated);
      } else {
        UpdateTopicTextKeepsAverage(topics, id, value);
      }
      topics := updated;
    }

    method EditPastSubjectTopic(id: int, index: nat, value: string)
      requires Valid()
      modifies this`topics
      ensures Valid()
      ensures topics == UpdatePastSubjectTopic(old(topics), id, index, value)
    {
      UpdatePastSubjectTopicKeepsAverage(topics, id, index, value);
      topics := UpdatePastSubjectTopic(topics, id, index, value);
    }

    method SetNotes(notes: string)
      modifies this`smeNotes
      ensures smeNotes == notes
    {
      smeNotes := notes;
    }

    /** `handleSubmit`. `answer` is the backend's reply. Nothing is sent
      unless every check passes; building the body may then throw, which
      leaves `submitting` set. A recorded review removes the draft, is
      reported as approved exactly when the average is at least 80, shows
      `subjectData?.pastSubjects?.length || 1` and leaves for the
      assignments list. */
    method Submit(answer: Reply<bool>) returns (result: SubmitResult, sent: Option<ReviewData>, navigateTo: Option<string>)
      requires Valid()
      modifies this`storage, this`submitting
      ensures var c := CheckSubmit(topics, averageSimilarity);
              c != Ready ==> result == Refused(c) && sent.None? && navigateTo.None? &&
                             storage == old(storage) && submitting == old(submitting)
      ensures CheckSubmit(topics, averageSimilarity) == Ready ==> Similarities(topics) != []
      ensures CheckSubmit(topics, averageSimilarity) == Ready && HasNullishCell(topics) ==>
                result == PayloadThrew && sent.None? && navigateTo.None? && submitting && storage == old(storage)
      ensures CheckSubmit(topics, averageSimilarity) == Ready && !HasNullishCell(topics) ==>
                sent == ReviewPayload(topics, averageSimilarity, smeNotes) && sent.Some? && !submitting &&
                (answer.Success? ==>
                   storage == old(storage) - {StorageKey(applicationSubjectId)} &&
                   navigateTo == Some(AssignmentsPath) &&
                   result == (if IsApproval(averageSimilarity)
                              then ReviewApproved(CellCount(pastSubjectsCount), averageSimilarity)
                              else ReviewRejected(CellCount(pastSubjectsCount), averageSimilarity))) &&
                (answer.Failure? ==>
                   storage == old(storage) && navigateTo.None? &&
                   result == SubmitFailed(OrElse(Some(answer.message), "Failed to submit review")))
    {
      navigateTo := None;
      var c := CheckSubmit(topics, averageSimilarity);
      if c != Ready {
        return Refused(c), None, None;
      }
      ReadyMeansCountedRows(topics);
      submitting := true;
      sent := ReviewPayload(topics, averageSimilarity, smeNotes);
      if sent.None? {
        return PayloadThrew, None, None;
      }
      if answer.Success? {
        storage := storage - {StorageKey(applicationSubjectId)};
        var count := CellCount(pastSubjectsCount);
        if IsApproval(averageSimilarity) {
          result := ReviewApproved(count, averageSimilarity);
        } else {
          result := ReviewRejected(count, averageSimilarity);
        }
        navigateTo := Some(AssignmentsPath);
      } else {
        result := SubmitFailed(OrElse(Some(answer.message), "Failed to submit review"));
      }
      submitting := false;
    }
  }
}
