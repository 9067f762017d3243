# Student result management — verified model of the record store and statistics

The application keeps an ordered roster of student records, each a name and three
marks (Math, Science, English). Three form actions change the roster: add a student,
delete the selected student, clear all. After each change the statistics panel is
recomputed from scratch: per-row total, average and letter grade, the class average,
the top performer, the top student of each subject and a grade-distribution summary.

The model has six modules, one file each:

- `wrappers.dfy` — `Option` (a mark field that did or did not parse) and `Outcome`
  (an action that succeeded or reports why it did nothing).
- `text.dfy` — `str.strip()` on the name field: `TrimLeft`, `TrimRight`, `Trim`, with
  whitespace as Python's `str.isspace()` defines it.
- `records.dfy` — the record, its marks by column, its total and average.
- `grading.dfy` — `get_grade`, the step function from an average to a letter.
- `roster.dfy` — the class `Store`. It holds the roster in its `students` field, a `seq`.
  Its methods `AddStudent`, `DeleteSelected` and `ClearAll` update that field in place.
  `Without` is the list comprehension used by delete. The store invariant `Valid()`
  says that every stored name is already stripped and is not empty.
- `statistics.dfy` — `ComputeReport` is the pure specification of what `update_table`
  shows. `UpdateTable` is the method with the source's loops, split into `TableRows`,
  `SubjectToppers` and `GradeSummary`, and is proved equal to `ComputeReport`.
  `UpdateTable` computes the sorted distinct grades and hands them to `GradeSummary`,
  which holds the loop over them.
  `ArgMax` is numpy's first-occurrence `argmax`. `Sum` and `Mean` stand for `np.sum` and
  `np.mean`, and `Count` for `list.count`. The remaining lemmas state what the report
  promises.

Marks are `real` numbers. Each mark field reaches `AddStudent` already parsed, as an
`Option<real>`: `None` means that `float(...)` raised `ValueError`. The answer of the
clear-all confirmation dialog is the `confirmed` argument of `ClearAll`. The name that
`DeleteSelected` receives is the selected row's name, or `None` when no row is selected.
The report holds values, not label text.

`sorted(set(all_grades))` is modelled as the letters of `"ABCDF"` that occur among the
grades, kept in that order. Every grade is one of those letters (`GradeOf`), so the two
agree: `Present` yields a strictly ascending list, and `TallyOfPresent` and
`GradeSummaryCorrect` show that it holds exactly the grades that occur.

## Model

| member | source | states |
|---|---|---|
| `Text.IsSpace` | project.py:18 | The whitespace `strip()` removes is the `str.isspace()` set: blank, tab, line feed and carriage return are in it; no ASCII letter or digit is. |
| `Text.TrimLeft` | project.py:18 | The result is a suffix of the input; everything cut off is whitespace; the result is empty or starts with a non-space. |
| `Text.TrimRight` | project.py:18 | The result is a prefix of the input; everything cut off is whitespace; the result is empty or ends with a non-space. |
| `Text.Trim` | project.py:18 | The stripped name is no longer than the raw one, and it is empty or neither of its ends is whitespace. |
| `Text.TrimIsInfix` | project.py:18 | The stripped name is a contiguous part of the raw name, and only whitespace lies before and after it. |
| `Text.TrimEmptyIff` | project.py:27 | The name is empty after stripping exactly when the raw name is all whitespace. |
| `Text.TrimIdempotent` | project.py:18 | Stripping an already stripped name changes nothing, so stored names stay stripped. |
| `Records.Total` | project.py:52 | A student's total is the sum of the three subject marks. |
| `Records.Average` | project.py:53 | A student's average is a third of the total, so it lies between the smallest and the largest mark. |
| `Grading.GradeOf` | project.py:9-14 | The result is one of A, B, C, D, F. It is 'A' iff avg >= 90, 'B' iff 80 <= avg < 90, 'C' iff 70 <= avg < 80, 'D' iff 60 <= avg < 70, and 'F' iff avg < 60: each band is closed at its lower edge. |
| `Grading.GradeMonotone` | project.py:9-14 | A higher average never earns a later letter. |
| `Roster.Without` | project.py:90 | A record is kept iff it was in the roster and its name differs from the selected name; the roster never grows. |
| `Roster.WithoutAppend` | project.py:90 | The filter distributes over concatenation, so the kept records stay in their original relative order. |
| `Roster.WithoutNoMatch` | project.py:90 | Deleting a name that no record carries leaves the roster unchanged. |
| `Roster.WithoutRemovesAllNamed` | project.py:90 | Exactly as many records are removed as carry the name, not just the first one, and none with that name remains. |
| `Roster.Store.constructor` | project.py:6 | The store starts with an empty roster, which satisfies the invariant. |
| `Roster.Store.AddStudent` | project.py:17-31 | A missing mark fails with InvalidMarks before the name is checked. With all marks present, an all-whitespace name fails with MissingName. Both failures leave the roster unchanged. Otherwise the roster becomes the old roster plus one record at the end, holding the stripped name and the three marks. The invariant is kept. |
| `Roster.Store.DeleteSelected` | project.py:84-91 | With no selection, it fails with NoSelection and leaves the roster unchanged. Otherwise the roster becomes the old roster without every record that carries the selected name. The invariant is kept. |
| `Roster.Store.ClearAll` | project.py:94-97 | A confirmed clear empties the roster. An unconfirmed one leaves it unchanged. |
| `Statistics.Mean` | project.py:62 | The mean times the number of entries gives back the sum. |
| `Statistics.Column` | project.py:72 | One entry per student, holding that student's mark in the chosen subject. |
| `Statistics.Totals` | project.py:52 | One total per student, each the sum of that row's three column entries. |
| `Statistics.Averages` | project.py:53 | One average per student, each a third of that row's total. |
| `Statistics.ArgMax` | project.py:65-72 | The result is a valid index holding the largest value, and every earlier index holds a strictly smaller one: the first occurrence wins ties. |
| `Statistics.FirstMaxUnique` | project.py:65-72 | At most one index is the first maximum, so `ArgMax` is fully determined by that property. |
| `Statistics.Count` | project.py:80 | A count never exceeds the list length, and it is zero exactly when the letter does not occur. |
| `Statistics.Present` | project.py:79 | A letter is listed iff it is one of the candidate letters and occurs among the grades. With ascending candidates the list is strictly ascending, i.e. sorted without repeats. |
| `Statistics.Grades` | project.py:77 | One grade per student, in roster order; each is one of A, B, C, D, F, and it is the grade of that student's average. |
| `Statistics.PresentGrades` | project.py:79 | The list is strictly ascending (sorted, no repeats), and a letter is listed iff it occurs among the grades and is a grade letter. Every grade is a letter, so this is `sorted(set(all_grades))`. |
| `Grading.LettersAscending` | project.py:9-14 | The five letters the grading can produce are strictly ascending, which keeps the summary sorted. |
| `Statistics.ComputeReport` | project.py:43-81 | The report is the "no data" placeholder exactly when the roster is empty. Otherwise it has one row per record, the roster size as its count, and three subject toppers. |
| `Statistics.TableRows` | project.py:55-60 | The row loop yields one row per record, in roster order, each with the record's total, average and grade. |
| `Statistics.SubjectToppers` | project.py:69-73 | The subject loop yields, for each of the three columns, that column's first-maximum student, its name and its mark. |
| `Statistics.GradeSummary` | project.py:78-80 | The summary loop yields, for each letter of the sorted distinct grades and in that order, one entry with that letter's number of occurrences. |
| `Statistics.UpdateTable` | project.py:39-81 | The method's loops compute exactly the report `ComputeReport` specifies, including the empty-roster placeholder. |
| `Statistics.ReportRows` | project.py:51-60 | Each row holds the record's name and marks. Its total is the sum of the three marks, its average times three equals the total, and its grade is the grade of that average. |
| `Statistics.TopPerformer` | project.py:65-66 | The top performer is a valid index with the largest total. Every earlier student has a strictly smaller total. The name and total shown are that student's. |
| `Statistics.TieGoesToFirst` | project.py:65 | For any two students with equal totals, the one added later is never the top performer, and when their total is the largest the top performer was added no later than the earlier one. |
| `Statistics.SubjectToppersAreFirstMax` | project.py:69-73 | For each subject independently, the topper has the largest mark in that column and no earlier student reaches it. The subject name, student name and mark shown are consistent. |
| `Statistics.TallyOfPresent` | project.py:77-80 | Over distinct ascending letters that cover every grade, the tally is strictly ascending, lists every grade that occurs, gives each a positive count equal to its occurrences, and its counts add up to the number of grades. |
| `Statistics.GradeSummaryCorrect` | project.py:77-80 | The grade summary is strictly ascending and lists every grade some student earned. Each count is positive and equals the number of students with that grade. The counts add up to the roster size. |
| `Statistics.MeanAtLeast` | project.py:62 | A mean of values that are all at least lo is at least lo. |
| `Statistics.MeanAtMost` | project.py:62 | A mean of values that are all at most hi is at most hi. |
| `Statistics.MeanOfThirds` | project.py:53-62 | The mean of the per-row averages equals the grand total divided by three times the row count. |
| `Statistics.ClassAverageIsMeanOfTotals` | project.py:53-62 | The class average, taken as the mean of the per-student averages, equals the sum of all totals divided by three times the roster size. |
| `Statistics.ClassAverageWithin` | project.py:62 | The class average lies within any bounds that every student's average respects. |
| `Statistics.TopAtLeastClassAverage` | project.py:62-65 | The top performer's average is at least the class average. |
| `Statistics.TwoStudentTop` | project.py:65-66 | For Alice (90, 80, 70) followed by Bob (60, 100, 100), the top performer is Bob with 260. |
| `Statistics.TwoStudentToppers` | project.py:69-73 | For the same two students, Alice tops Math and Bob tops Science and English. |
| `Statistics.TwoStudentSummary` | project.py:77-80 | For the same two students, both earn a B, so the summary is B: 2. |

## Left out

- The Tkinter window, form entries, buttons, Treeview rows, message boxes and label texts
  (project.py:1-2, 32-35, 40-41, 44-48, 60, 63-66, 74, 81, 87, 99-168): user-interface
  plumbing. The report carries the values those labels display.
- `float(...)` parsing of the mark fields (project.py:20-22): Python's float syntax is
  library behaviour. Each field arrives as an `Option<real>`, and a parsed `inf` or `nan`
  is not modelled.
- IEEE floating-point arithmetic and numpy (project.py:3, 51-53, 62, 65, 72): marks,
  totals and averages are exact `real` numbers, and the `:.2f` rounding of displayed
  averages (project.py:60, 64) is not modelled.
- The yes/no dialog of `clear_all` (project.py:95): its answer is the `confirmed` argument.
- The selected row's name is read back from the Treeview (project.py:89), and Tkinter may
  convert it to a number (a student named "42" comes back as the integer 42 and then
  matches no record). The model takes the selected name as a string.
- `update_table` is not called from the store methods (project.py:36, 91, 97). The caller
  runs `UpdateTable` on `students` after each change.
- `Roster.Store.DeleteSelected`: removing every record with the selected name, not just
  the selected row, is kept as the source does it. No count of removed records is
  returned, because the source returns none; `WithoutRemovesAllNamed` gives that number.
