/** A student record: a name and the three subject marks, with the derived total and average. */
module Records {

  /** `{"name": name, "marks": [m1, m2, m3]}`; the three marks are Math, Science and English. */
  datatype Record = Record(name: string, math: real, science: real, english: real)

  /** The subject names, in mark order. */
  const Subjects: seq<string> := ["Math", "Science", "English"]

  /** The mark in column `subject` (0 = Math, 1 = Science, 2 = English). */
  function Mark(r: Record, subject: nat): real
    requires subject < 3
  {
    if subject == 0 then r.math else if subject == 1 then r.science else r.english
  }

  /** A row of `np.sum(all_marks, axis=1)`: the three subject marks added up. */
  function Total(r: Record): (t: real)
    ensures t == Mark(r, 0) + Mark(r, 1) + Mark(r, 2)
  {
    r.math + r.science + r.english
  }

  /** A row of `np.mean(all_marks, axis=1)`: it lies between the smallest and the largest mark. */
  function Average(r: Record): (a: real)
    ensures a * 3.0 == Total(r)
    ensures r.math <= a || r.science <= a || r.english <= a
    ensures a <= r.math || a <= r.science || a <= r.english
  {
    Total(r) / 3.0
  }
}
