/**
 * The statistics recomputed from the whole roster after every change:
 * per-row total, average and grade, the class average, the top performer,
 * the top student of each subject and the grade summary.
 */
module Statistics {
  import opened Records
  import opened Grading

  // ---------------------------------------------------------------------
  // Reductions standing in for numpy

  /** `np.sum` of a vector. */
  function Sum(xs: seq<real>): real
    decreases |xs|
  {
    if xs == [] then 0.0 else Sum(xs[..|xs| - 1]) + xs[|xs| - 1]
  }

  /** `np.mean` of a non-empty vector: the value whose `|xs|` copies add up to the sum. */
  function Mean(xs: seq<real>): (m: real)
    requires xs != []
    ensures m * (|xs| as real) == Sum(xs)
  {
    Sum(xs) / (|xs| as real)
  }

  /** `k` is the first index holding the largest value of `xs`. */
  predicate IsFirstMax(xs: seq<real>, k: nat)
  {
    && k < |xs|
    && (forall j :: 0 <= j < |xs| ==> xs[j] <= xs[k])
    && (forall j :: 0 <= j < k ==> xs[j] < xs[k])
  }

  /** `np.argmax`: a left-to-right scan that moves only on a strictly larger value. */
  function ArgMax(xs: seq<real>): (k: nat)
    requires xs != []
    ensures IsFirstMax(xs, k)
    decreases |xs|
  {
    if |xs| == 1 then 0
    else
      var k := ArgMax(xs[..|xs| - 1]);
      if xs[|xs| - 1] > xs[k] then |xs| - 1 else k
  }

  /** There is only one first maximum, so `ArgMax` is the index the predicate describes. */
  lemma FirstMaxUnique(xs: seq<real>, k1: nat, k2: nat)
    requires IsFirstMax(xs, k1) && IsFirstMax(xs, k2)
    ensures k1 == k2
  {
    assert xs[k1] == xs[k2];
  }

  /** `list.count`: how many times `g` occurs in `gs`. */
  function Count(gs: seq<char>, g: char): (n: nat)
    ensures n <= |gs|
    ensures n == 0 <==> g !in gs
    decreases |gs|
  {
    if gs == [] then 0
    else Count(gs[..|gs| - 1], g) + (if gs[|gs| - 1] == g then 1 else 0)
  }

  // ---------------------------------------------------------------------
  // Columns of `all_marks` and the per-row values

  /** `np.sum(all_marks, axis=1)`: each entry adds up the three columns of its row. */
  function Totals(s: seq<Record>): (t: seq<real>)
    ensures |t| == |s|
    ensures forall i :: 0 <= i < |s| ==> t[i] == Column(s, 0)[i] + Column(s, 1)[i] + Column(s, 2)[i]
  {
    seq(|s|, i requires 0 <= i < |s| => Total(s[i]))
  }

  /** `np.mean(all_marks, axis=1)`: each entry is a third of the row's total. */
  function Averages(s: seq<Record>): (a: seq<real>)
    ensures |a| == |s|
    ensures forall i :: 0 <= i < |s| ==> a[i] * 3.0 == Totals(s)[i]
  {
    seq(|s|, i requires 0 <= i < |s| => Average(s[i]))
  }

  /** `all_marks[:, subject]`: one entry per student, the mark of that subject. */
  function Column(s: seq<Record>, subject: nat): (c: seq<real>)
    requires subject < 3
    ensures |c| == |s|
    ensures forall i :: 0 <= i < |s| ==> c[i] == Mark(s[i], subject)
  {
    seq(|s|, i requires 0 <= i < |s| => Mark(s[i], subject))
  }

  /** `all_grades`: the grade of every row, in roster order; each is one of `Letters`. */
  function Grades(s: seq<Record>): (gs: seq<char>)
    ensures |gs| == |s|
    ensures forall i :: 0 <= i < |s| ==> gs[i] in Letters && gs[i] == GradeOf(Averages(s)[i])
  {
    seq(|s|, i requires 0 <= i < |s| => GradeOf(Average(s[i])))
  }

  // ---------------------------------------------------------------------
  // The grade summary

  /** One entry of the summary: a letter and how many students earned it. */
  datatype GradeCount = GradeCount(grade: char, count: nat)

  /** The letters of `letters` that occur in `gs`, in the order of `letters`. */
  function Present(letters: seq<char>, gs: seq<char>): (p: seq<char>)
    ensures forall g :: g in p <==> g in letters && g in gs
    ensures Ascending(letters) ==> Ascending(p)
    decreases |letters|
  {
    if letters == [] then []
    else
      var rest := Present(letters[1..], gs);
      assert Ascending(letters) ==> forall i :: 0 <= i < |rest| ==> letters[0] < rest[i] by {
        if Ascending(letters) {
          forall i | 0 <= i < |rest| ensures letters[0] < rest[i] {
            assert rest[i] in letters[1..];
            var j :| 0 <= j < |letters[1..]| && letters[1..][j] == rest[i];
            assert letters[j + 1] == rest[i];
          }
        }
      }
      if letters[0] in gs then [letters[0]] + rest else rest
  }

  /**
   * `sorted(set(all_grades))`: every grade is one of `Letters`, so the distinct
   * grades in ascending order are the letters that occur, in letter order.
   */
  function PresentGrades(gs: seq<char>): (p: seq<char>)
    ensures Ascending(p)
    ensures forall g :: g in p <==> g in gs && g in Letters
  {
    LettersAscending();
    Present(Letters, gs)
  }

  /** One entry per letter of `p`, with its number of occurrences in `gs`. */
  function Tally(p: seq<char>, gs: seq<char>): seq<GradeCount>
  {
    seq(|p|, i requires 0 <= i < |p| => GradeCount(p[i], Count(gs, p[i])))
  }

  function Summary(gs: seq<char>): seq<GradeCount>
  {
    Tally(PresentGrades(gs), gs)
  }

  function SumCounts(cs: seq<GradeCount>): nat
    decreases |cs|
  {
    if cs == [] then 0 else cs[0].count + SumCounts(cs[1..])
  }

  // ---------------------------------------------------------------------
  // The report

  /** One table row: name, the three marks, total, average and grade. */
  datatype Row = Row(name: string, math: real, science: real, english: real,
                     total: real, average: real, grade: char)

  /** The best student of one subject, with the row index it was found at. */
  datatype Topper = Topper(subject: string, index: nat, name: string, mark: real)

  /**
   * What the statistics panel shows. `NoData` is the placeholder shown for an
   * empty roster ("--" everywhere).
   */
  datatype Report =
    | NoData
    | Report(rows: seq<Row>, count: nat, classAverage: real,
             top: nat, topName: string, topTotal: real,
             toppers: seq<Topper>, summary: seq<GradeCount>)

  function RowOf(r: Record): Row
  {
    Row(r.name, r.math, r.science, r.english, Total(r), Average(r), GradeOf(Average(r)))
  }

  function Rows(s: seq<Record>): seq<Row>
  {
    seq(|s|, i requires 0 <= i < |s| => RowOf(s[i]))
  }

  function SubjectTopper(s: seq<Record>, subject: nat): Topper
    requires s != [] && subject < 3
  {
    var k := ArgMax(Column(s, subject));
    Topper(Subjects[subject], k, s[k].name, Mark(s[k], subject))
  }

  /** The report `update_table` derives from the roster `s`. */
  function ComputeReport(s: seq<Record>): (rep: Report)
    ensures rep.NoData? <==> s == []
    ensures rep.Report? ==> rep.count == |s| && |rep.rows| == |s| && |rep.toppers| == 3
  {
    if s == [] then NoData
    else
      var totals := Totals(s);
      var top := ArgMax(totals);
      Report(Rows(s), |s|, Mean(Averages(s)), top, s[top].name, totals[top],
             seq(3, i requires 0 <= i < 3 => SubjectTopper(s, i)),
             Summary(Grades(s)))
  }

  /** The row loop of `update_table`: one row per record, in roster order. */
  method TableRows(students: seq<Record>) returns (rows: seq<Row>)
    ensures rows == Rows(students)
  {
    var totals := Totals(students);
    var avgs := Averages(students);
    rows := [];
    for i := 0 to |students|
      invariant |rows| == i
      invariant forall k :: 0 <= k < i ==> rows[k] == RowOf(students[k])
    {
      var student := students[i];
      var grade := GradeOf(avgs[i]);
      rows := rows + [Row(student.name, student.math, student.science, student.english,
                          totals[i], avgs[i], grade)];
    }
  }

  /** The subject loop of `update_table`: an independent first-maximum search per column. */
  method SubjectToppers(students: seq<Record>) returns (toppers: seq<Topper>)
    requires students != []
    ensures toppers == seq(3, i requires 0 <= i < 3 => SubjectTopper(students, i))
  {
    toppers := [];
    for i := 0 to 3
      invariant |toppers| == i
      invariant forall k :: 0 <= k < i ==> toppers[k] == SubjectTopper(students, k)
    {
      var column := Column(students, i);
      var topSub := ArgMax(column);
      toppers := toppers + [Topper(Subjects[i], topSub, students[topSub].name, column[topSub])];
    }
  }

  /**
   * The summary loop of `update_table`: for each letter of `present` (the sorted
   * distinct grades), one entry with its number of occurrences in `allGrades`.
   */
  method GradeSummary(present: seq<char>, allGrades: seq<char>) returns (summary: seq<GradeCount>)
    ensures summary == Tally(present, allGrades)
  {
    summary := [];
    for j := 0 to |present|
      invariant |summary| == j
      invariant forall k :: 0 <= k < j ==> summary[k] == GradeCount(present[k], Count(allGrades, present[k]))
    {
      var g := present[j];
      summary := summary + [GradeCount(g, Count(allGrades, g))];
    }
  }

  /** `update_table`: the placeholder for an empty roster, otherwise the full report. */
  method UpdateTable(students: seq<Record>) returns (rep: Report)
    ensures rep == ComputeReport(students)
  {
    if |students| == 0 {
      return NoData;
    }
    var totals := Totals(students);
    var rows := TableRows(students);
    var classAvg := Mean(Averages(students));
    var topIdx := ArgMax(totals);
    var toppers := SubjectToppers(students);
    var allGrades := Grades(students);
    var summary := GradeSummary(PresentGrades(allGrades), allGrades);
    rep := Report(rows, |students|, classAvg, topIdx, students[topIdx].name, totals[topIdx],
                  toppers, summary);
  }

  // ---------------------------------------------------------------------
  // What the report promises

  /** Each row holds the record's marks, their sum, a third of it, and the grade of that. */
  lemma ReportRows(s: seq<Record>)
    requires s != []
    ensures var rows := ComputeReport(s).rows;
      forall i :: 0 <= i < |s| ==>
        && rows[i].name == s[i].name
        && rows[i].math == s[i].math && rows[i].science == s[i].science && rows[i].english == s[i].english
        && rows[i].total == s[i].math + s[i].science + s[i].english
        && rows[i].average * 3.0 == rows[i].total
        && rows[i].grade == GradeOf(rows[i].average)
  {
  }

  /** The top performer has the largest total, and no earlier student reaches it. */
  lemma TopPerformer(s: seq<Record>)
    requires s != []
    ensures var rep := ComputeReport(s);
      && rep.top < |s|
      && rep.topName == s[rep.top].name
      && rep.topTotal == Total(s[rep.top])
      && (forall j :: 0 <= j < |s| ==> Total(s[j]) <= rep.topTotal)
      && (forall j :: 0 <= j < rep.top ==> Total(s[j]) < rep.topTotal)
  {
    var totals := Totals(s);
    var top := ArgMax(totals);
    assert ComputeReport(s).top == top;
    forall j | 0 <= j < |s| ensures Total(s[j]) <= Total(s[top]) && (j < top ==> Total(s[j]) < Total(s[top])) {
      assert totals[j] == Total(s[j]);
    }
  }

  /**
   * Of two students with the same total, the later one is never the top
   * performer; when their total is the largest, the top performer is the
   * earlier one or someone added before it.
   */
  lemma TieGoesToFirst(s: seq<Record>, i: nat, j: nat)
    requires i < j < |s| && Total(s[i]) == Total(s[j])
    ensures ComputeReport(s).top != j
    ensures (forall k :: 0 <= k < |s| ==> Total(s[k]) <= Total(s[j])) ==> ComputeReport(s).top <= i
  {
    TopPerformer(s);
  }

  /** Each subject's topper is that column's first maximum, found independently of the others. */
  lemma SubjectToppersAreFirstMax(s: seq<Record>)
    requires s != []
    ensures var toppers := ComputeReport(s).toppers;
      forall subject :: 0 <= subject < 3 ==>
        var t := toppers[subject];
        && t.subject == Subjects[subject]
        && t.index < |s|
        && t.name == s[t.index].name
        && t.mark == Mark(s[t.index], subject)
        && (forall j :: 0 <= j < |s| ==> Mark(s[j], subject) <= t.mark)
        && (forall j :: 0 <= j < t.index ==> Mark(s[j], subject) < t.mark)
  {
    var toppers := ComputeReport(s).toppers;
    assert toppers == seq(3, i requires 0 <= i < 3 => SubjectTopper(s, i));
    forall subject | 0 <= subject < 3
      ensures var t := toppers[subject];
        && t.subject == Subjects[subject]
        && t.index < |s|
        && t.name == s[t.index].name
        && t.mark == Mark(s[t.index], subject)
        && (forall j :: 0 <= j < |s| ==> Mark(s[j], subject) <= t.mark)
        && (forall j :: 0 <= j < t.index ==> Mark(s[j], subject) < t.mark)
    {
      var column := Column(s, subject);
      var k := ArgMax(column);
      assert toppers[subject] == SubjectTopper(s, subject);
      forall j | 0 <= j < |s| ensures Mark(s[j], subject) <= Mark(s[k], subject) && (j < k ==> Mark(s[j], subject) < Mark(s[k], subject)) {
        assert column[j] == Mark(s[j], subject);
      }
    }
  }

  /** The sum of `Count(gs, l)` over the letters `l` of `letters`. */
  function CountsOver(letters: seq<char>, gs: seq<char>): nat
    decreases |letters|
  {
    if letters == [] then 0 else Count(gs, letters[0]) + CountsOver(letters[1..], gs)
  }

  lemma {:induction false} SumCountsTally(p: seq<char>, gs: seq<char>)
    ensures SumCounts(Tally(p, gs)) == CountsOver(p, gs)
    decreases |p|
  {
    if p != [] {
      assert Tally(p, gs)[1..] == Tally(p[1..], gs);
      SumCountsTally(p[1..], gs);
    }
  }

  /** Leaving out the letters that do not occur does not change the total. */
  lemma {:induction false} CountsOverPresent(letters: seq<char>, gs: seq<char>)
    ensures CountsOver(Present(letters, gs), gs) == CountsOver(letters, gs)
    decreases |letters|
  {
    if letters != [] {
      CountsOverPresent(letters[1..], gs);
      var rest := Present(letters[1..], gs);
      if letters[0] in gs {
        assert ([letters[0]] + rest)[1..] == rest;
      }
    }
  }

  lemma {:induction false} CountsOverEmpty(letters: seq<char>)
    ensures CountsOver(letters, []) == 0
    decreases |letters|
  {
    if letters != [] {
      CountsOverEmpty(letters[1..]);
    }
  }

  /** One more grade adds one to the total exactly when it is one of the (distinct) letters. */
  lemma {:induction false} CountsOverSnoc(letters: seq<char>, gs: seq<char>, x: char)
    requires Ascending(letters)
    ensures CountsOver(letters, gs + [x]) == CountsOver(letters, gs) + (if x in letters then 1 else 0)
    decreases |letters|
  {
    if letters != [] {
      assert (gs + [x])[..|gs|] == gs;
      CountsOverSnoc(letters[1..], gs, x);
      assert x == letters[0] ==> x !in letters[1..];
    }
  }

  /** When every grade is one of the letters, the counts over the letters add up to the number of grades. */
  lemma {:induction false} CountsOverAll(letters: seq<char>, gs: seq<char>)
    requires Ascending(letters)
    requires forall i :: 0 <= i < |gs| ==> gs[i] in letters
    ensures CountsOver(letters, gs) == |gs|
    decreases |gs|
  {
    if gs == [] {
      CountsOverEmpty(letters);
    } else {
      var init := gs[..|gs| - 1];
      CountsOverAll(letters, init);
      assert init + [gs[|gs| - 1]] == gs;
      CountsOverSnoc(letters, init, gs[|gs| - 1]);
    }
  }

  /** The tally of the letters present is ascending, positive, complete and adds up to `|gs|`. */
  lemma {:induction false} TallyOfPresent(letters: seq<char>, gs: seq<char>)
    requires Ascending(letters)
    requires forall i :: 0 <= i < |gs| ==> gs[i] in letters
    ensures var sm := Tally(Present(letters, gs), gs);
      && (forall i, j :: 0 <= i < j < |sm| ==> sm[i].grade < sm[j].grade)
      && (forall i :: 0 <= i < |sm| ==> 0 < sm[i].count == Count(gs, sm[i].grade))
      && (forall k :: 0 <= k < |gs| ==> exists i :: 0 <= i < |sm| && sm[i].grade == gs[k])
      && SumCounts(sm) == |gs|
  {
    var p := Present(letters, gs);
    var sm := Tally(p, gs);
    forall k | 0 <= k < |gs|
      ensures exists i :: 0 <= i < |sm| && sm[i].grade == gs[k]
    {
      assert gs[k] in p by {
        assert gs[k] in gs;
      }
      var i :| 0 <= i < |p| && p[i] == gs[k];
      assert sm[i].grade == gs[k];
    }
    forall i | 0 <= i < |sm| ensures 0 < sm[i].count {
      assert p[i] in p;
    }
    TallySumsToSize(letters, gs);
  }

  /** The counts of the tally add up to the number of grades. */
  lemma TallySumsToSize(letters: seq<char>, gs: seq<char>)
    requires Ascending(letters)
    requires forall i :: 0 <= i < |gs| ==> gs[i] in letters
    ensures SumCounts(Tally(Present(letters, gs), gs)) == |gs|
  {
    SumCountsTally(Present(letters, gs), gs);
    CountsOverPresent(letters, gs);
    CountsOverAll(letters, gs);
  }

  /**
   * The grade summary lists each grade that occurs exactly once, in ascending
   * order, with a positive count equal to its occurrences; the counts add up
   * to the number of students.
   */
  lemma GradeSummaryCorrect(s: seq<Record>)
    requires s != []
    ensures var sm := ComputeReport(s).summary;
      && (forall i, j :: 0 <= i < j < |sm| ==> sm[i].grade < sm[j].grade)
      && (forall i :: 0 <= i < |sm| ==> 0 < sm[i].count == Count(Grades(s), sm[i].grade))
      && (forall k :: 0 <= k < |s| ==> exists i :: 0 <= i < |sm| && sm[i].grade == GradeOf(Average(s[k])))
      && SumCounts(sm) == |s|
  {
    var gs := Grades(s);
    var sm := ComputeReport(s).summary;
    assert sm == Summary(gs);
    assert forall i :: 0 <= i < |gs| ==> gs[i] in Letters;
    LettersAscending();
    TallyOfPresent(Letters, gs);
    forall k | 0 <= k < |s|
      ensures exists i :: 0 <= i < |sm| && sm[i].grade == GradeOf(Average(s[k]))
    {
      assert gs[k] == GradeOf(Average(s[k]));
    }
  }

  /** Scaling every entry by a third scales the sum by a third. */
  lemma {:induction false} SumThirds(xs: seq<real>, ys: seq<real>)
    requires |xs| == |ys|
    requires forall i :: 0 <= i < |xs| ==> ys[i] == xs[i] / 3.0
    ensures Sum(ys) == Sum(xs) / 3.0
    decreases |xs|
  {
    if xs != [] {
      SumThirds(xs[..|xs| - 1], ys[..|ys| - 1]);
    }
  }

  /** A sum of `n` entries, each at least `lo`, is at least `n * lo`. */
  lemma {:induction false} SumAtLeast(xs: seq<real>, lo: real)
    requires forall i :: 0 <= i < |xs| ==> lo <= xs[i]
    ensures (|xs| as real) * lo <= Sum(xs)
    decreases |xs|
  {
    if xs != [] {
      SumAtLeast(xs[..|xs| - 1], lo);
      assert (|xs| as real - 1.0) * lo + lo == (|xs| as real) * lo;
    }
  }

  /** A sum of `n` entries, each at most `hi`, is at most `n * hi`. */
  lemma {:induction false} SumAtMost(xs: seq<real>, hi: real)
    requires forall i :: 0 <= i < |xs| ==> xs[i] <= hi
    ensures Sum(xs) <= (|xs| as real) * hi
    decreases |xs|
  {
    if xs != [] {
      SumAtMost(xs[..|xs| - 1], hi);
      assert (|xs| as real - 1.0) * hi + hi == (|xs| as real) * hi;
    }
  }

  /** Dividing by a positive `n` keeps a bound `n * lo <= x`. */
  lemma DivAtLeast(x: real, n: real, lo: real)
    requires n > 0.0 && n * lo <= x
    ensures lo <= x / n
  {
    var q := x / n;
    assert q * n == x;
  }

  /** Dividing by a positive `n` keeps a bound `x <= n * hi`. */
  lemma DivAtMost(x: real, n: real, hi: real)
    requires n > 0.0 && x <= n * hi
    ensures x / n <= hi
  {
    var q := x / n;
    assert q * n == x;
  }

  /** The mean of entries that are all at least `lo` is at least `lo`. */
  lemma MeanAtLeast(xs: seq<real>, lo: real)
    requires xs != []
    requires forall i :: 0 <= i < |xs| ==> lo <= xs[i]
    ensures lo <= Mean(xs)
  {
    SumAtLeast(xs, lo);
    DivAtLeast(Sum(xs), |xs| as real, lo);
  }

  /** The mean of entries that are all at most `hi` is at most `hi`. */
  lemma MeanAtMost(xs: seq<real>, hi: real)
    requires xs != []
    requires forall i :: 0 <= i < |xs| ==> xs[i] <= hi
    ensures Mean(xs) <= hi
  {
    SumAtMost(xs, hi);
    DivAtMost(Sum(xs), |xs| as real, hi);
  }

  /** The mean of values that are each a third of another list is a third of that list's mean. */
  lemma MeanOfThirds(xs: seq<real>, ys: seq<real>)
    requires xs != [] && |xs| == |ys|
    requires forall i :: 0 <= i < |xs| ==> ys[i] == xs[i] / 3.0
    ensures Mean(ys) == Sum(xs) / (3.0 * |xs| as real)
  {
    SumThirds(xs, ys);
    var total, n := Sum(xs), |xs| as real;
    assert (total / 3.0) / n == total / (3.0 * n);
  }

  /** The class average, a mean of per-student averages, is the grand total over three times the roster size. */
  lemma ClassAverageIsMeanOfTotals(s: seq<Record>)
    requires s != []
    ensures ComputeReport(s).classAverage == Sum(Totals(s)) / (3.0 * |s| as real)
  {
    var totals, avgs := Totals(s), Averages(s);
    assert forall i :: 0 <= i < |totals| ==> avgs[i] == totals[i] / 3.0;
    MeanOfThirds(totals, avgs);
    var m := Mean(avgs);
    assert m == Sum(totals) / (3.0 * |s| as real);
    assert ComputeReport(s).classAverage == m;
  }

  /** The class average lies within any bounds every student's average respects. */
  lemma ClassAverageWithin(s: seq<Record>, lo: real, hi: real)
    requires s != []
    requires forall i :: 0 <= i < |s| ==> lo <= Average(s[i]) <= hi
    ensures lo <= ComputeReport(s).classAverage <= hi
  {
    assert ComputeReport(s).classAverage == Mean(Averages(s));
    MeanAtLeast(Averages(s), lo);
    MeanAtMost(Averages(s), hi);
  }

  /** The top performer's average is at least the class average. */
  lemma TopAtLeastClassAverage(s: seq<Record>)
    requires s != []
    ensures ComputeReport(s).classAverage <= Average(s[ComputeReport(s).top])
  {
    var totals := Totals(s);
    var avgs := Averages(s);
    var top := ArgMax(totals);
    assert ComputeReport(s).top == top;
    assert ComputeReport(s).classAverage == Mean(avgs);
    forall j | 0 <= j < |s| ensures avgs[j] <= avgs[top] {
      assert totals[j] <= totals[top];
    }
    MeanAtMost(avgs, avgs[top]);
  }

  /** Alice (90, 80, 70) and Bob (60, 100, 100), in that order. */
  function TwoStudents(): seq<Record>
  {
    [Record("Alice", 90.0, 80.0, 70.0), Record("Bob", 60.0, 100.0, 100.0)]
  }

  /** Bob tops the class with 260 marks. */
  lemma TwoStudentTop()
    ensures ComputeReport(TwoStudents()).top == 1
    ensures ComputeReport(TwoStudents()).topTotal == 260.0
  {
    assert Totals(TwoStudents()) == [240.0, 260.0];
  }

  /** Alice tops Math; Bob tops Science and English. */
  lemma TwoStudentToppers()
    ensures var toppers := ComputeReport(TwoStudents()).toppers;
      toppers[0].name == "Alice" && toppers[1].name == "Bob" && toppers[2].name == "Bob"
  {
    var s := TwoStudents();
    assert Column(s, 0) == [90.0, 60.0];
    assert Column(s, 1) == [80.0, 100.0];
    assert Column(s, 2) == [70.0, 100.0];
  }

  /** Both students earn a B, so the summary is "B: 2". */
  lemma TwoStudentSummary()
    ensures ComputeReport(TwoStudents()).summary == [GradeCount('B', 2)]
  {
    var s := TwoStudents();
    assert Average(s[0]) == 80.0 && GradeOf(80.0) == 'B';
    assert 80.0 <= Average(s[1]) < 90.0;
    var gs := Grades(s);
    assert gs == ['B', 'B'];
    assert Count(gs, 'B') == 2 by {
      assert gs[..1] == ['B'];
    }
    assert PresentGrades(gs) == ['B'] by {
      assert Present("F", gs) == [];
      assert Present("DF", gs) == [];
      assert Present("CDF", gs) == [];
      assert Present("BCDF", gs) == ['B'];
    }
  }
}
