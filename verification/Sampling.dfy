/** Row accounting and the bounded sampling heap of one CSV entry (scripts/audit_azure_dataset.py). */
module Sampling {
  import opened Whitespace

  type CsvRow = seq<string>

  /** (-score, row number, row). Row numbers differ, so the row itself is never compared. */
  datatype Candidate = Candidate(key: int, number: nat, row: CsvRow)

  datatype Order = ByScore | ByNumber

  predicate Less(order: Order, a: Candidate, b: Candidate) {
    match order
    case ByScore => a.key < b.key || (a.key == b.key && a.number < b.number)
    case ByNumber => a.number < b.number
  }

  predicate Blank(row: CsvRow) {
    forall value | value in row :: forall c | c in value :: IsSpace(c)
  }

  predicate Counts(row: CsvRow, columns: nat) {
    !Blank(row) && |row| == columns
  }

  /** The well-formed rows, numbered from the second line of the file. */
  function Candidates(rows: seq<CsvRow>, columns: nat, score: (nat, CsvRow) -> nat): seq<Candidate> {
    if rows == [] then []
    else
      var n := |rows| - 1;
      Candidates(rows[..n], columns, score) +
      if Counts(rows[n], columns) then [Candidate(-(score(n + 2, rows[n]) as int), n + 2, rows[n])] else []
  }

  // ----- The reference: sort everything, take k, reorder -----

  function Insert(order: Order, c: Candidate, s: seq<Candidate>): seq<Candidate> {
    if s == [] || Less(order, c, s[0]) then [c] + s else [s[0]] + Insert(order, c, s[1..])
  }

  function Sort(order: Order, s: seq<Candidate>): seq<Candidate> {
    if s == [] then [] else Insert(order, s[0], Sort(order, s[1..]))
  }

  function Last(k: nat, s: seq<Candidate>): seq<Candidate> {
    if k <= |s| then s[|s| - k..] else s
  }

  function Reference(s: seq<Candidate>, k: nat): seq<Candidate> {
    Sort(ByNumber, Last(k, Sort(ByScore, s)))
  }

  function RowsOf(s: seq<Candidate>): seq<CsvRow> {
    seq(|s|, i requires 0 <= i < |s| => s[i].row)
  }

  // ----- Sets of candidates -----

  ghost predicate DistinctNumbers(s: seq<Candidate>) {
    forall i, j | 0 <= i < j < |s| :: s[i].number != s[j].number
  }

  function Elements(s: seq<Candidate>): set<Candidate> {
    set c | c in s
  }

  /** `top` is the k greatest of `all`, or all of them when there are fewer. */
  ghost predicate IsTop(top: set<Candidate>, all: set<Candidate>, k: nat) {
    && top <= all
    && |top| == (if k <= |all| then k else |all|)
    && forall t, s | t in top && s in all && s !in top :: Less(ByScore, s, t)
  }

  lemma SubsetOfSameSize<T>(a: set<T>, b: set<T>)
    requires a <= b && |a| == |b|
    ensures a == b
  {
    if x :| x in b && x !in a {
      SizeOfSubset(a, b - {x});
    }
  }

  lemma {:induction false} SizeOfSubset<T>(a: set<T>, b: set<T>)
    requires a <= b
    ensures |a| <= |b|
  {
    if x :| x in a {
      SizeOfSubset(a - {x}, b - {x});
    }
  }

  lemma TopIsUnique(a: set<Candidate>, b: set<Candidate>, all: set<Candidate>, k: nat)
    requires IsTop(a, all, k) && IsTop(b, all, k)
    ensures a == b
  {
    if a <= b {
      SubsetOfSameSize(a, b);
    } else if b <= a {
      SubsetOfSameSize(b, a);
    } else {
      var x :| x in a && x !in b;
      var y :| y in b && y !in a;
      NotBoth(x, y);
    }
  }

  lemma NotBoth(x: Candidate, y: Candidate)
    ensures !(Less(ByScore, x, y) && Less(ByScore, y, x))
  {
  }

  ghost predicate Increasing(order: Order, s: seq<Candidate>) {
    forall i, j | 0 <= i < j < |s| :: Less(order, s[i], s[j])
  }

  lemma {:induction false} InsertElements(order: Order, c: Candidate, s: seq<Candidate>, x: Candidate)
    ensures x in Insert(order, c, s) <==> x == c || x in s
  {
    if s != [] && !Less(order, c, s[0]) {
      InsertElements(order, c, s[1..], x);
    }
  }

  lemma {:induction false} InsertIncreases(order: Order, c: Candidate, s: seq<Candidate>)
    requires Increasing(order, s) && forall x | x in s :: x.number != c.number
    ensures Increasing(order, Insert(order, c, s)) && |Insert(order, c, s)| == |s| + 1
  {
    if s != [] && !Less(order, c, s[0]) {
      var rest := Insert(order, c, s[1..]);
      InsertIncreases(order, c, s[1..]);
      forall i | 0 <= i < |rest|
        ensures Less(order, s[0], rest[i])
      {
        InsertElements(order, c, s[1..], rest[i]);
        assert s[0] in s;
        if rest[i] != c {
          var j :| 0 <= j < |s[1..]| && s[1..][j] == rest[i];
          assert s[j + 1] == rest[i];
        }
      }
    }
  }

  lemma {:induction false} SortSorts(order: Order, s: seq<Candidate>)
    requires DistinctNumbers(s)
    ensures Increasing(order, Sort(order, s)) && Elements(Sort(order, s)) == Elements(s) && |Sort(order, s)| == |s|
  {
    if s != [] {
      SortSorts(order, s[1..]);
      var tail := Sort(order, s[1..]);
      assert forall x | x in tail :: x in Elements(s[1..]);
      forall x | x in tail
        ensures x.number != s[0].number
      {
        assert x in s[1..];
      }
      InsertIncreases(order, s[0], tail);
      forall x: Candidate
        ensures x in Elements(Sort(order, s)) <==> x in Elements(s)
      {
        InsertElements(order, s[0], tail, x);
        assert x in tail <==> x in Elements(s[1..]);
      }
    }
  }

  lemma {:induction false} ElementsSize(s: seq<Candidate>)
    requires forall i, j | 0 <= i < j < |s| :: s[i] != s[j]
    ensures |Elements(s)| == |s|
  {
    if s != [] {
      var front, last := s[..|s| - 1], s[|s| - 1];
      ElementsSize(front);
      assert last !in front;
      assert s == front + [last];
      assert Elements(s) == Elements(front) + {last};
    }
  }

  lemma LowBelowTop(low: seq<Candidate>, top: seq<Candidate>, x: Candidate, t: Candidate)
    requires Increasing(ByScore, low + top) && x in low && t in top
    ensures Less(ByScore, x, t)
  {
    var i :| 0 <= i < |low| && low[i] == x;
    var j :| 0 <= j < |top| && top[j] == t;
    assert (low + top)[i] == x && (low + top)[|low| + j] == t;
  }

  lemma LastDistinct(low: seq<Candidate>, top: seq<Candidate>)
    requires DistinctNumbers(low + top)
    ensures DistinctNumbers(top) && |Elements(top)| == |top| && |Elements(low + top)| == |low| + |top|
  {
    assert forall i | 0 <= i < |top| :: (low + top)[|low| + i] == top[i];
    ElementsSize(top);
    ElementsSize(low + top);
  }

  lemma ElementsOfParts(low: seq<Candidate>, top: seq<Candidate>)
    ensures Elements(low + top) == Elements(low) + Elements(top)
  {
  }

  /** The upper part of an increasing list holds its greatest. */
  lemma UpperPartIsTop(low: seq<Candidate>, top: seq<Candidate>, k: nat)
    requires Increasing(ByScore, low + top) && DistinctNumbers(low + top)
    requires |top| == if k <= |low + top| then k else |low + top|
    ensures IsTop(Elements(top), Elements(low + top), k) && DistinctNumbers(top)
  {
    hide Less, DistinctNumbers, Increasing;
    LastDistinct(low, top);
    ElementsOfParts(low, top);
    forall t, x | t in Elements(top) && x in Elements(low)
      ensures Less(ByScore, x, t)
    {
      LowBelowTop(low, top, x, t);
    }
    hide Elements;
  }

  /** The last k of an increasing list are its k greatest. */
  lemma LastOfIncreasing(sorted: seq<Candidate>, k: nat)
    requires Increasing(ByScore, sorted) && DistinctNumbers(sorted)
    ensures IsTop(Elements(Last(k, sorted)), Elements(sorted), k) && DistinctNumbers(Last(k, sorted))
  {
    hide DistinctNumbers, Increasing, IsTop, Elements;
    var top := Last(k, sorted);
    var low := sorted[..|sorted| - |top|];
    assert sorted == low + top;
    UpperPartIsTop(low, top, k);
  }

  /** Sorting everything and taking the last k gives the k greatest. */
  lemma LastOfSortedIsTop(s: seq<Candidate>, k: nat)
    requires DistinctNumbers(s)
    ensures IsTop(Elements(Last(k, Sort(ByScore, s))), Elements(s), k)
    ensures DistinctNumbers(Last(k, Sort(ByScore, s)))
  {
    hide Sort, Last, IsTop, Increasing, DistinctNumbers;
    SortSorts(ByScore, s);
    ScoreOrderDistinct(s, Sort(ByScore, s));
    LastOfIncreasing(Sort(ByScore, s), k);
  }

  lemma ScoreOrderDistinct(s: seq<Candidate>, sorted: seq<Candidate>)
    requires DistinctNumbers(s) && Increasing(ByScore, sorted) && Elements(sorted) == Elements(s)
    ensures DistinctNumbers(sorted)
  {
    forall i, j | 0 <= i < j < |sorted|
      ensures sorted[i].number != sorted[j].number
    {
      assert sorted[i] in Elements(s) && sorted[j] in Elements(s);
      var a :| 0 <= a < |s| && s[a] == sorted[i];
      var b :| 0 <= b < |s| && s[b] == sorted[j];
      assert Less(ByScore, sorted[i], sorted[j]);
      assert a < b || b < a;
    }
  }

  /** Two lists increasing by row number with the same elements are the same list. */
  lemma {:induction false} NumberOrderIsUnique(a: seq<Candidate>, b: seq<Candidate>)
    requires Increasing(ByNumber, a) && Increasing(ByNumber, b) && Elements(a) == Elements(b)
    ensures a == b
  {
    assert forall i | 0 <= i < |a| :: a[i] in Elements(a);
    assert forall i | 0 <= i < |b| :: b[i] in Elements(b);
    assert a == [] <==> b == [];
    if a != [] {
      var i :| 0 <= i < |b| && b[i] == a[0];
      var j :| 0 <= j < |a| && a[j] == b[0];
      assert a[0] == b[0];
      forall x: Candidate
        ensures x in Elements(a[1..]) <==> x in Elements(b[1..])
      {
        TailElements(a, x);
        TailElements(b, x);
        assert x in Elements(a) <==> x in Elements(b);
      }
      NumberOrderIsUnique(a[1..], b[1..]);
    }
  }

  lemma TailElements(a: seq<Candidate>, x: Candidate)
    requires a != [] && Increasing(ByNumber, a)
    ensures x in Elements(a[1..]) <==> x in Elements(a) && x != a[0]
  {
    if x in a && x != a[0] {
      var i :| 0 <= i < |a| && a[i] == x;
      assert a[1..][i - 1] == x;
    }
  }

  // ----- The heap -----

  /** What heapq promises about a heap: its first element is the least. */
  ghost predicate IsHeap(heap: seq<Candidate>) {
    && DistinctNumbers(heap)
    && forall i | 0 < i < |heap| :: Less(ByScore, heap[0], heap[i])
  }

  method HeapPush(heap: seq<Candidate>, c: Candidate) returns (pushed: seq<Candidate>)
    requires IsHeap(heap) && forall x | x in heap :: x.number != c.number
    ensures IsHeap(pushed) && Elements(pushed) == Elements(heap) + {c} && |pushed| == |heap| + 1
  {
    pushed := if heap != [] && Less(ByScore, heap[0], c) then heap + [c] else [c] + heap;
    assert forall i | 0 <= i < |heap| :: heap[i] in heap;
  }

  method HeapReplace(heap: seq<Candidate>, c: Candidate) returns (replaced: seq<Candidate>)
    requires IsHeap(heap) && heap != [] && forall x | x in heap :: x.number != c.number
    ensures IsHeap(replaced) && Elements(replaced) == Elements(heap) - {heap[0]} + {c} && |replaced| == |heap|
  {
    replaced := [c];
    for i := 1 to |heap|
      invariant IsHeap(replaced) && |replaced| == i
      invariant Elements(replaced) == Elements(heap[1..i]) + {c}
      invariant forall x | x in replaced :: x == c || x in heap[1..i]
    {
      forall x | x in replaced
        ensures x.number != heap[i].number
      {
        if x != c {
          var k :| 0 <= k < |heap[1..i]| && heap[1..i][k] == x;
          assert heap[k + 1] == x;
        }
      }
      assert heap[1..i + 1] == heap[1..i] + [heap[i]];
      replaced := HeapPush(replaced, heap[i]);
      assert forall x | x in replaced :: x in Elements(replaced);
    }
    assert heap[1..|heap|] == heap[1..];
    assert Elements(heap[1..]) == Elements(heap) - {heap[0]} by {
      assert heap == [heap[0]] + heap[1..];
      forall x | x in heap[1..]
        ensures x != heap[0]
      {
        var k :| 0 <= k < |heap[1..]| && heap[1..][k] == x;
        assert heap[k + 1] == x;
      }
    }
  }

  // ----- One candidate more -----

  lemma TopAfterAll(top: set<Candidate>, all: set<Candidate>, k: nat, c: Candidate)
    requires IsTop(top, all, k) && |top| < k && c !in all
    ensures top == all && IsTop(top + {c}, all + {c}, k)
  {
    SubsetOfSameSize(top, all);
  }

  lemma TopAfterReplace(top: set<Candidate>, all: set<Candidate>, k: nat, c: Candidate, least: Candidate)
    requires IsTop(top, all, k) && |top| == k && c !in all && least in top
    requires forall t | t in top && t != least :: Less(ByScore, least, t)
    requires Less(ByScore, least, c)
    ensures IsTop(top - {least} + {c}, all + {c}, k)
  {
    SizeOfSubset(top, all);
  }

  lemma TopAfterSkip(top: set<Candidate>, all: set<Candidate>, k: nat, c: Candidate, least: Candidate)
    requires IsTop(top, all, k) && |top| == k && c !in all && least in top
    requires forall t | t in top && t != least :: Less(ByScore, least, t)
    requires !Less(ByScore, least, c) && forall t | t in all :: t.number != c.number
    ensures IsTop(top, all + {c}, k)
  {
    SizeOfSubset(top, all);
  }

  lemma {:induction false} CandidateNumbers(rows: seq<CsvRow>, columns: nat, score: (nat, CsvRow) -> nat)
    ensures Increasing(ByNumber, Candidates(rows, columns, score))
    ensures forall c | c in Candidates(rows, columns, score) :: c.number < |rows| + 2
  {
    if rows != [] {
      CandidateNumbers(rows[..|rows| - 1], columns, score);
    }
  }

  /** `least` admits `c` into a full heap of size k over `all`. */
  method Offer(heap: seq<Candidate>, ghost all: set<Candidate>, k: nat, c: Candidate) returns (next: seq<Candidate>)
    requires IsHeap(heap) && |heap| <= k && IsTop(Elements(heap), all, k) && k > 0
    requires forall x | x in all :: x.number != c.number
    ensures IsHeap(next) && |next| <= k && IsTop(Elements(next), all + {c}, k)
  {
    assert forall x | x in heap :: x in Elements(heap);
    ElementsSize(heap);
    if |heap| < k {
      next := HeapPush(heap, c);
      TopAfterAll(Elements(heap), all, k, c);
    } else {
      assert heap[0] in Elements(heap);
      if Less(ByScore, heap[0], c) {
        next := HeapReplace(heap, c);
        TopAfterReplace(Elements(heap), all, k, c, heap[0]);
      } else {
        next := heap;
        TopAfterSkip(Elements(heap), all, k, c, heap[0]);
      }
    }
  }

  lemma NextRow(rows: seq<CsvRow>, i: nat, columns: nat, score: (nat, CsvRow) -> nat)
    requires i < |rows|
    ensures Candidates(rows[..i + 1], columns, score) == Candidates(rows[..i], columns, score) +
            if Counts(rows[i], columns) then [Candidate(-(score(i + 2, rows[i]) as int), i + 2, rows[i])] else []
  {
    assert rows[..i + 1][..i] == rows[..i];
  }

  lemma OneMoreElement(s: seq<Candidate>, c: Candidate)
    ensures Elements(s + [c]) == Elements(s) + {c}
  {
  }

  /** Any heap holding the k greatest, put back in file order, is the reference. */
  lemma HeapIsReference(heap: seq<Candidate>, s: seq<Candidate>, k: nat)
    requires IsHeap(heap) && IsTop(Elements(heap), Elements(s), k) && DistinctNumbers(s)
    ensures Sort(ByNumber, heap) == Reference(s, k)
  {
    hide Sort, Last, IsTop, Elements, DistinctNumbers, Increasing;
    var last := Last(k, Sort(ByScore, s));
    LastOfSortedIsTop(s, k);
    TopIsUnique(Elements(heap), Elements(last), Elements(s), k);
    SortSorts(ByNumber, heap);
    SortSorts(ByNumber, last);
    NumberOrderIsUnique(Sort(ByNumber, heap), Reference(s, k));
  }

  // ----- What the sample is, said of the rows alone -----

  /** The blank lines: every value of such a line strips to nothing. */
  function BlankOf(rows: seq<CsvRow>): set<nat> {
    set i: nat | i < |rows| && Blank(rows[i])
  }

  lemma BlankStrips(row: CsvRow)
    ensures Blank(row) <==> forall value | value in row :: Strip(value) == ""
  {
    forall value | value in row
      ensures Strip(value) == "" <==> forall c | c in value :: IsSpace(c)
    {
      StripsToNothing(value);
    }
  }

  lemma StripsToNothing(t: string)
    ensures Strip(t) == "" <==> forall c | c in t :: IsSpace(c)
  {
    var n := LeadingSpaces(t);
    if n < |t| {
      assert t[n] in t && t[n..][0] == t[n];
      assert TrailingSpaces(t[n..]) < |t| - n;
    }
  }

  /** The well-formed lines: as many values as there are columns, and one of them not blank. */
  function WellFormed(rows: seq<CsvRow>, columns: nat): set<nat> {
    set i: nat | i < |rows| && |rows[i]| == columns && !Blank(rows[i])
  }

  /** Row j is dropped before row i: its score is greater, or the same and it stands earlier. */
  predicate Yields(rows: seq<CsvRow>, score: (nat, CsvRow) -> nat, j: nat, i: nat) {
    && i < |rows| && j < |rows|
    && (|| score(j + 2, rows[j]) > score(i + 2, rows[i])
        || (score(j + 2, rows[j]) == score(i + 2, rows[i]) && j < i))
  }

  /** `kept` are k of the well-formed lines, or all of them, in file order, and any other yields to each of them. */
  ghost predicate Keeps(kept: seq<nat>, rows: seq<CsvRow>, columns: nat, score: (nat, CsvRow) -> nat, k: nat) {
    && (forall i, j | 0 <= i < j < |kept| :: kept[i] < kept[j])
    && (forall i | i in kept :: i in WellFormed(rows, columns))
    && |kept| == (if k <= |WellFormed(rows, columns)| then k else |WellFormed(rows, columns)|)
    && forall i, j | i in kept && j in WellFormed(rows, columns) && j !in kept :: Yields(rows, score, j, i)
  }

  ghost predicate IsSample(samples: seq<CsvRow>, rows: seq<CsvRow>, columns: nat, score: (nat, CsvRow) -> nat, k: nat)
  {
    exists kept ::
      && Keeps(kept, rows, columns, score, k) && |samples| == |kept|
      && forall i | 0 <= i < |kept| :: kept[i] < |rows| && samples[i] == rows[kept[i]]
  }

  function CandidateAt(rows: seq<CsvRow>, score: (nat, CsvRow) -> nat, i: nat): Candidate
    requires i < |rows|
  {
    Candidate(-(score(i + 2, rows[i]) as int), i + 2, rows[i])
  }

  lemma {:induction false} CandidatesOfRows(rows: seq<CsvRow>, columns: nat, score: (nat, CsvRow) -> nat, c: Candidate)
    ensures c in Candidates(rows, columns, score)
            <==> && 2 <= c.number < |rows| + 2 && c.number - 2 in WellFormed(rows, columns)
                 && c == CandidateAt(rows, score, c.number - 2)
  {
    hide Blank;
    if rows != [] {
      var front := rows[..|rows| - 1];
      CandidatesOfRows(front, columns, score, c);
      assert forall i | 0 <= i < |front| :: front[i] == rows[i];
    }
  }

  lemma {:induction false} AsManyCandidates(rows: seq<CsvRow>, columns: nat, score: (nat, CsvRow) -> nat)
    ensures |Candidates(rows, columns, score)| == |WellFormed(rows, columns)|
  {
    hide Blank;
    if rows != [] {
      var n := |rows| - 1;
      AsManyCandidates(rows[..n], columns, score);
      assert WellFormed(rows, columns)
             == WellFormed(rows[..n], columns) + if Counts(rows[n], columns) then {n} else {};
    } else {
      assert WellFormed(rows, columns) == {};
    }
  }

  lemma NoBlanks(rows: seq<CsvRow>)
    ensures BlankOf(rows[..0]) == {}
  {
  }

  lemma NextBlank(rows: seq<CsvRow>, i: nat)
    requires i < |rows|
    ensures |BlankOf(rows[..i + 1])| == |BlankOf(rows[..i])| + if Blank(rows[i]) then 1 else 0
  {
    hide Blank;
    assert BlankOf(rows[..i + 1]) == BlankOf(rows[..i]) + if Blank(rows[i]) then {i} else {};
  }

  lemma ReferenceIsTop(s: seq<Candidate>, k: nat)
    requires DistinctNumbers(s)
    ensures Increasing(ByNumber, Reference(s, k)) && IsTop(Elements(Reference(s, k)), Elements(s), k)
    ensures |Reference(s, k)| == |Elements(Reference(s, k))|
  {
    hide Sort, Last, IsTop, Elements, DistinctNumbers;
    LastOfSortedIsTop(s, k);
    SortSorts(ByNumber, Last(k, Sort(ByScore, s)));
    ElementsSize(Reference(s, k));
  }

  /** The reference is the sample. */
  lemma SampleIsTop(rows: seq<CsvRow>, columns: nat, score: (nat, CsvRow) -> nat, k: nat)
    ensures IsSample(RowsOf(Reference(Candidates(rows, columns, score), k)), rows, columns, score, k)
  {
    hide Candidates, Reference, WellFormed, Less, DistinctNumbers;
    var all := Candidates(rows, columns, score);
    var top := Reference(all, k);
    FileOrderDistinct(rows, columns, score);
    ReferenceIsTop(all, k);
    AsManyCandidates(rows, columns, score);
    ElementsOfDistinct(all);
    forall c | c in all || c in top
      ensures c in all && 2 <= c.number < |rows| + 2 && c == CandidateAt(rows, score, c.number - 2)
      ensures c.number - 2 in WellFormed(rows, columns)
    {
      assert c in Elements(top) ==> c in Elements(all);
      CandidatesOfRows(rows, columns, score, c);
    }
    NumbersKept(rows, columns, score, k, top);
  }

  lemma ElementsOfDistinct(s: seq<Candidate>)
    requires DistinctNumbers(s)
    ensures |Elements(s)| == |s|
  {
    ElementsSize(s);
  }

  lemma NumbersKept(rows: seq<CsvRow>, columns: nat, score: (nat, CsvRow) -> nat, k: nat, top: seq<Candidate>)
    requires Increasing(ByNumber, top) && |top| == |Elements(top)|
    requires IsTop(Elements(top), Elements(Candidates(rows, columns, score)), k)
    requires |Elements(Candidates(rows, columns, score))| == |WellFormed(rows, columns)|
    requires forall c | c in top :: c.number - 2 in WellFormed(rows, columns)
    requires forall c | c in top :: 2 <= c.number < |rows| + 2 && c == CandidateAt(rows, score, c.number - 2)
    ensures IsSample(RowsOf(top), rows, columns, score, k)
  {
    hide Candidates, Elements, Blank;
    var kept := seq(|top|, i requires 0 <= i < |top| => top[i].number - 2);
    forall i, j | i in kept && j in WellFormed(rows, columns) && j !in kept
      ensures Yields(rows, score, j, i)
    {
      var a :| 0 <= a < |top| && kept[a] == i;
      forall c | c in top
        ensures c.number - 2 != j
      {
        var b :| 0 <= b < |top| && top[b] == c;
        assert kept[b] == c.number - 2;
      }
      OtherYields(rows, columns, score, k, top, a, j);
    }
    assert Keeps(kept, rows, columns, score, k);
  }

  lemma OtherYields(rows: seq<CsvRow>, columns: nat, score: (nat, CsvRow) -> nat, k: nat, top: seq<Candidate>,
                    a: nat, j: nat)
    requires IsTop(Elements(top), Elements(Candidates(rows, columns, score)), k)
    requires a < |top| && 2 <= top[a].number < |rows| + 2 && top[a] == CandidateAt(rows, score, top[a].number - 2)
    requires j in WellFormed(rows, columns) && forall c | c in top :: c.number - 2 != j
    ensures Yields(rows, score, j, top[a].number - 2)
  {
    hide Candidates, Blank;
    var other := CandidateAt(rows, score, j);
    CandidatesOfRows(rows, columns, score, other);
    assert top[a] in Elements(top) && other in Elements(Candidates(rows, columns, score));
    assert other !in top;
    assert Less(ByScore, other, top[a]);
  }

  /**
    The streaming pass: it accounts for every line, and its bounded heap yields exactly what sorting all well-formed
    rows by (-score, row number), taking the k greatest and putting them back in file order would yield.
   */
  method ProfileRows(rows: seq<CsvRow>, columns: nat, score: (nat, CsvRow) -> nat, k: nat)
    returns (rowCount: nat, blankRows: nat, malformedRows: nat, samples: seq<CsvRow>)
    ensures rowCount + blankRows == |rows| && blankRows == |BlankOf(rows)|
    ensures rowCount - malformedRows == |WellFormed(rows, columns)|
    ensures samples == RowsOf(Reference(Candidates(rows, columns, score), k))
    ensures IsSample(samples, rows, columns, score, k)
  {
    hide Blank, BlankOf, Candidates, Elements, IsTop, Increasing, IsHeap, Sort, Reference;
    rowCount, blankRows, malformedRows := 0, 0, 0;
    var heap: seq<Candidate> := [];
    EmptyHeap(k);
    assert rows[..0] == [];
    NoCandidates(columns, score);
    NoBlanks(rows);
    for i := 0 to |rows|
      invariant rowCount + blankRows == i && blankRows == |BlankOf(rows[..i])|
      invariant rowCount - malformedRows == |Candidates(rows[..i], columns, score)|
      invariant IsHeap(heap) && |heap| <= k && IsTop(Elements(heap), Elements(Candidates(rows[..i], columns, score)), k)
    {
      var row := rows[i];
      ghost var before := Candidates(rows[..i], columns, score);
      NextRow(rows, i, columns, score);
      NextBlank(rows, i);
      if Blank(row) {
        assert Candidates(rows[..i + 1], columns, score) == before;
        blankRows := blankRows + 1;
        continue;
      }
      rowCount := rowCount + 1;
      if |row| != columns {
        assert Candidates(rows[..i + 1], columns, score) == before;
        malformedRows := malformedRows + 1;
        continue;
      }
      var c := Candidate(-(score(i + 2, row) as int), i + 2, row);
      OneMoreElement(before, c);
      NewNumber(rows, i, columns, score);
      if k > 0 {
        heap := Offer(heap, Elements(before), k, c);
      } else {
        EmptyTop(heap, Elements(before), c);
      }
    }
    assert rows[..|rows|] == rows;
    FileOrderDistinct(rows, columns, score);
    SampleIsTop(rows, columns, score, k);
    AsManyCandidates(rows, columns, score);
    HeapIsReference(heap, Candidates(rows, columns, score), k);
    samples := RowsOf(Sort(ByNumber, heap));
  }

  lemma EmptyHeap(k: nat)
    ensures IsHeap([]) && IsTop(Elements([]), Elements([]), k)
  {
    assert |Elements([])| == 0;
  }

  lemma NoCandidates(columns: nat, score: (nat, CsvRow) -> nat)
    ensures Candidates([], columns, score) == []
  {
  }

  lemma EmptyTop(heap: seq<Candidate>, all: set<Candidate>, c: Candidate)
    requires heap == [] && IsTop(Elements(heap), all, 0)
    ensures IsTop(Elements(heap), all + {c}, 0)
  {
  }

  lemma NewNumber(rows: seq<CsvRow>, i: nat, columns: nat, score: (nat, CsvRow) -> nat)
    requires i < |rows|
    ensures forall x | x in Elements(Candidates(rows[..i], columns, score)) :: x.number != i + 2
  {
    CandidateNumbers(rows[..i], columns, score);
  }

  lemma FileOrderDistinct(rows: seq<CsvRow>, columns: nat, score: (nat, CsvRow) -> nat)
    ensures DistinctNumbers(Candidates(rows, columns, score))
  {
    CandidateNumbers(rows, columns, score);
  }
}
