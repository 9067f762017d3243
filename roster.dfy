/**
 * The record store: the ordered list of student records and the three
 * operations that change it (add, delete the selected name, clear all).
 */
module Roster {
  import opened Wrappers
  import opened Text
  import opened Records

  /** Why an add left the roster as it was. */
  datatype AddError =
    | InvalidMarks   // some mark field is not a number
    | MissingName    // the name is empty once stripped

  /** Why a delete left the roster as it was. */
  datatype DeleteError = NoSelection

  /** What every stored record satisfies: its name is stripped and not empty. */
  predicate WellFormed(r: Record)
  {
    r.name != [] && Trim(r.name) == r.name
  }

  /** The records whose name is not `name`, in their original order. */
  function Without(s: seq<Record>, name: string): (r: seq<Record>)
    ensures |r| <= |s|
    ensures forall x :: x in r <==> x in s && x.name != name
    decreases |s|
  {
    if s == [] then []
    else if s[0].name != name then [s[0]] + Without(s[1..], name)
    else Without(s[1..], name)
  }

  /** How many records carry `name`. */
  function Named(s: seq<Record>, name: string): nat
    decreases |s|
  {
    if s == [] then 0 else (if s[0].name == name then 1 else 0) + Named(s[1..], name)
  }

  /** Filtering distributes over concatenation: relative order is kept. */
  lemma {:induction false} WithoutAppend(a: seq<Record>, b: seq<Record>, name: string)
    ensures Without(a + b, name) == Without(a, name) + Without(b, name)
    decreases |a|
  {
    if a == [] {
      assert a + b == b;
    } else {
      assert (a + b)[0] == a[0];
      assert (a + b)[1..] == a[1..] + b;
      WithoutAppend(a[1..], b, name);
    }
  }

  /** Deleting a name that no record carries leaves the roster unchanged. */
  lemma {:induction false} WithoutNoMatch(s: seq<Record>, name: string)
    requires forall i :: 0 <= i < |s| ==> s[i].name != name
    ensures Without(s, name) == s
    decreases |s|
  {
    if s != [] {
      WithoutNoMatch(s[1..], name);
    }
  }

  /** Exactly the records carrying the name are removed, every one of them. */
  lemma {:induction false} WithoutRemovesAllNamed(s: seq<Record>, name: string)
    ensures |Without(s, name)| == |s| - Named(s, name)
    ensures Named(Without(s, name), name) == 0
    decreases |s|
  {
    if s != [] {
      WithoutRemovesAllNamed(s[1..], name);
    }
  }

  /** The roster, `students`. Records are only ever created by a successful add. */
  class Store {
    var students: seq<Record>

    /**
     * The roster's data invariant: every stored name is non-empty and already
     * stripped, because a record enters only through a successful add.
     */
    ghost predicate Valid()
      reads this
    {
      forall i :: 0 <= i < |students| ==> WellFormed(students[i])
    }

    /** `students = []` */
    constructor ()
      ensures Valid() && students == []
    {
      students := [];
    }

    /**
     * `add_student`: the marks are checked first, then the stripped name; only
     * when both pass is the new record appended at the end.
     */
    method AddStudent(rawName: string, math: Option<real>, science: Option<real>, english: Option<real>)
      returns (res: Outcome<AddError>)
      requires Valid()
      modifies this
      ensures Valid()
      ensures (math.None? || science.None? || english.None?) ==>
                res == Fail(InvalidMarks) && students == old(students)
      ensures math.Some? && science.Some? && english.Some? && AllSpace(rawName) ==>
                res == Fail(MissingName) && students == old(students)
      ensures math.Some? && science.Some? && english.Some? && !AllSpace(rawName) ==>
                res == Pass &&
                students == old(students) + [Record(Trim(rawName), math.value, science.value, english.value)]
    {
      var name := Trim(rawName);
      if math.None? || science.None? || english.None? {
        return Fail(InvalidMarks);
      }
      TrimEmptyIff(rawName);
      if name == [] {
        return Fail(MissingName);
      }
      TrimIdempotent(rawName);
      students := students + [Record(name, math.value, science.value, english.value)];
      res := Pass;
    }

    /**
     * `delete_selected`: with no row selected nothing happens; otherwise every
     * record carrying the selected row's name is removed.
     */
    method DeleteSelected(selection: Option<string>) returns (res: Outcome<DeleteError>)
      requires Valid()
      modifies this
      ensures Valid()
      ensures selection.None? ==> res == Fail(NoSelection) && students == old(students)
      ensures selection.Some? ==> res == Pass && students == Without(old(students), selection.value)
    {
      if selection.None? {
        return Fail(NoSelection);
      }
      students := Without(students, selection.value);
      res := Pass;
    }

    /** `clear_all`: the roster is emptied once the user confirms. */
    method ClearAll(confirmed: bool)
      requires Valid()
      modifies this
      ensures Valid()
      ensures students == if confirmed then [] else old(students)
    {
      if confirmed {
        students := [];
      }
    }
  }
}
