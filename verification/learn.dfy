/** The student-record exercise: a `Student` with a list of subject scores
    and their average, and the list-building loops of the comprehension
    exercises. Scores are modelled as reals (Python's `/` is true division). */
module Learn {
  import Seqs

  datatype SubjectScore = SubjectScore(subject: string, score: real)

  function Sum(s: seq<SubjectScore>): real
    decreases |s|
  {
    if s == [] then 0.0 else s[0].score + Sum(s[1..])
  }

  /** `calculate_average`: 0 without subjects, otherwise the sum over the count. */
  function Average(s: seq<SubjectScore>): (r: real)
    ensures s == [] ==> r == 0.0
    ensures s != [] ==> r * (|s| as real) == Sum(s)
  {
    if s == [] then 0.0 else Sum(s) / (|s| as real)
  }

  function MinScore(s: seq<SubjectScore>): (m: real)
    requires s != []
    ensures forall k :: 0 <= k < |s| ==> m <= s[k].score
    ensures exists k :: 0 <= k < |s| && m == s[k].score
    decreases |s|
  {
    if |s| == 1 then s[0].score
    else
      var rest := MinScore(s[1..]);
      if s[0].score <= rest then s[0].score else rest
  }

  function MaxScore(s: seq<SubjectScore>): (m: real)
    requires s != []
    ensures forall k :: 0 <= k < |s| ==> s[k].score <= m
    ensures exists k :: 0 <= k < |s| && m == s[k].score
    decreases |s|
  {
    if |s| == 1 then s[0].score
    else
      var rest := MaxScore(s[1..]);
      if s[0].score >= rest then s[0].score else rest
  }

  lemma {:induction false} SumBounds(s: seq<SubjectScore>, lo: real, hi: real)
    requires forall k :: 0 <= k < |s| ==> lo <= s[k].score <= hi
    ensures lo * (|s| as real) <= Sum(s) <= hi * (|s| as real)
    decreases |s|
  {
    if s != [] {
      SumBounds(s[1..], lo, hi);
      assert (|s| as real) == (|s[1..]| as real) + 1.0;
    }
  }

  /** The average of a non-empty list lies between its lowest and highest score. */
  lemma AverageBetween(s: seq<SubjectScore>)
    requires s != []
    ensures MinScore(s) <= Average(s) <= MaxScore(s)
  {
    AverageWithin(s, MinScore(s), MaxScore(s));
  }

  /** Bounds on every score bound the average. */
  lemma AverageWithin(s: seq<SubjectScore>, lo: real, hi: real)
    requires s != []
    requires forall k :: 0 <= k < |s| ==> lo <= s[k].score <= hi
    ensures lo <= Average(s) <= hi
  {
    var total, mean, n := Sum(s), Average(s), |s| as real;
    SumBounds(s, lo, hi);
    BoundedMean(total, mean, n, lo, hi);
  }

  /** A mean of n values whose total is between n·lo and n·hi lies between lo and hi. */
  lemma BoundedMean(sum: real, mean: real, n: real, lo: real, hi: real)
    requires n > 0.0 && mean * n == sum && lo * n <= sum <= hi * n
    ensures lo <= mean <= hi
  {
    Unscale(lo, mean, n);
    Unscale(mean, hi, n);
  }

  lemma Unscale(x: real, y: real, n: real)
    requires n > 0.0 && x * n <= y * n
    ensures x <= y
  {
  }

  /** Appending a score moves the sum by exactly that score. */
  lemma {:induction false} SumSnoc(s: seq<SubjectScore>, x: SubjectScore)
    ensures Sum(s + [x]) == Sum(s) + x.score
    decreases |s|
  {
    if s == [] {
      assert ([] + [x])[1..] == [];
    } else {
      assert (s + [x])[1..] == s[1..] + [x];
      SumSnoc(s[1..], x);
    }
  }

  class Student {
    const name: string
    const age: int
    const grade: string
    var subjects: seq<SubjectScore>

    /** A new student has no subjects. */
    constructor (name: string, age: int, grade: string)
      ensures this.name == name && this.age == age && this.grade == grade && subjects == []
    {
      this.name := name;
      this.age := age;
      this.grade := grade;
      subjects := [];
    }

    /** `add_subject`: one record at the end; duplicates are kept. */
    method AddSubject(subject: string, score: real)
      modifies this
      ensures subjects == old(subjects) + [SubjectScore(subject, score)]
      ensures Sum(subjects) == Sum(old(subjects)) + score
    {
      SumSnoc(subjects, SubjectScore(subject, score));
      subjects := subjects + [SubjectScore(subject, score)];
    }

    /** `calculate_average` on the student's subjects. */
    function CalculateAverage(): (r: real)
      reads this
      ensures subjects == [] ==> r == 0.0
      ensures subjects != [] ==> MinScore(subjects) <= r <= MaxScore(subjects)
    {
      if subjects != [] then AverageBetween(subjects); Average(subjects) else Average(subjects)
    }
  }

  /** `create_student`: the same as constructing a `Student`. */
  method CreateStudent(name: string, age: int, grade: string) returns (s: Student)
    ensures fresh(s) && s.name == name && s.age == age && s.grade == grade && s.subjects == []
  {
    s := new Student(name, age, grade);
  }

  // ---------------------------------------------------------------------
  // The "traditional" loops of the comprehension exercises
  // ---------------------------------------------------------------------

  /** A record of the `students` data: name, age and score. */
  datatype StudentRecord = StudentRecord(name: string, age: int, score: int)

  predicate IsEven(n: int) {
    n % 2 == 0
  }

  /** Exercise 1: the even numbers, in order. */
  method Evens(numbers: seq<int>) returns (evens: seq<int>)
    ensures evens == Seqs.Filter(numbers, IsEven)
    ensures forall x :: x in evens <==> x in numbers && IsEven(x)
  {
    evens := [];
    for i := 0 to |numbers|
      invariant evens == Seqs.Filter(numbers[..i], IsEven)
    {
      Seqs.FilterPrefix(numbers, i, IsEven);
      if numbers[i] % 2 == 0 {
        evens := evens + [numbers[i]];
      }
    }
    assert numbers[..|numbers|] == numbers;
  }

  /** Exercise 2: every student's name, in order. */
  method Names(students: seq<StudentRecord>) returns (names: seq<string>)
    ensures |names| == |students|
    ensures forall k :: 0 <= k < |students| ==> names[k] == students[k].name
  {
    names := [];
    for i := 0 to |students|
      invariant |names| == i
      invariant forall k :: 0 <= k < i ==> names[k] == students[k].name
    {
      names := names + [students[i].name];
    }
  }

  predicate HighScorer(s: StudentRecord) {
    s.score > 80
  }

  function Name(s: StudentRecord): string {
    s.name
  }

  /** Exercise 3: the names of the students scoring over 80, in order. */
  method HighScorers(students: seq<StudentRecord>) returns (names: seq<string>)
    ensures names == Seqs.Map(Seqs.Filter(students, HighScorer), Name)
    ensures |names| <= |students|
  {
    names := [];
    for i := 0 to |students|
      invariant names == Seqs.Map(Seqs.Filter(students[..i], HighScorer), Name)
    {
      Seqs.MapFilterPrefix(students, i, HighScorer, Name);
      if HighScorer(students[i]) {
        names := names + [students[i].name];
      }
    }
    assert students[..|students|] == students;
  }

  /** Exercise 4: each number squared, position by position. */
  method Squares(numbers: seq<int>) returns (squares: seq<int>)
    ensures |squares| == |numbers|
    ensures forall k :: 0 <= k < |numbers| ==> squares[k] == numbers[k] * numbers[k]
  {
    squares := [];
    for i := 0 to |numbers|
      invariant |squares| == i
      invariant forall k :: 0 <= k < i ==> squares[k] == numbers[k] * numbers[k]
    {
      squares := squares + [numbers[i] * numbers[i]];
    }
  }

  predicate EvenAge(s: StudentRecord) {
    s.age % 2 == 0
  }

  function Age(s: StudentRecord): int {
    s.age
  }

  /** Exercise 5: the even ages, in order. */
  method EvenAges(students: seq<StudentRecord>) returns (ages: seq<int>)
    ensures ages == Seqs.Map(Seqs.Filter(students, EvenAge), Age)
    ensures forall a :: a in ages ==> IsEven(a)
  {
    ages := [];
    for i := 0 to |students|
      invariant ages == Seqs.Map(Seqs.Filter(students[..i], EvenAge), Age)
    {
      Seqs.MapFilterPrefix(students, i, EvenAge, Age);
      if EvenAge(students[i]) {
        ages := ages + [students[i].age];
      }
    }
    assert students[..|students|] == students;
  }
}
