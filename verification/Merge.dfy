/** The transaction emitted by tools/evaluation-evolution.py, run against any prior contents of the two tables. */
module Merge {
  import opened Outcomes

  /** A row of evaluation.results: its run and the rest of its columns. */
  datatype Result = Result(run: string, columns: string)

  /** evaluation.runs by primary key, with the rest of the columns, and evaluation.results in insertion order. */
  datatype Tables = Tables(runs: map<string, string>, results: seq<Result>)

  /** The foreign key of evaluation.results. */
  predicate Referenced(t: Tables) {
    forall i | 0 <= i < |t.results| :: t.results[i].run in t.runs
  }

  /** `JOIN ... USING (run_id)`. */
  function Joined(rows: seq<Result>, runs: set<string>): seq<Result> {
    if rows == [] then []
    else
      var last := rows[|rows| - 1];
      Joined(rows[..|rows| - 1], runs) + if last.run in runs then [last] else []
  }

  /** `a EXCEPT ALL b`. */
  function ExceptAll(a: seq<Result>, b: seq<Result>): multiset<Result> {
    multiset(a) - multiset(b)
  }

  predicate MetadataDiffers(stored: Tables, incoming: Tables) {
    exists run | run in incoming.runs && run in stored.runs :: incoming.runs[run] != stored.runs[run]
  }

  /** The condition under which the transaction raises. */
  predicate Conflict(stored: Tables, incoming: Tables) {
    var ours, theirs := Joined(incoming.results, stored.runs.Keys), Joined(stored.results, incoming.runs.Keys);
    || MetadataDiffers(stored, incoming)
    || ExceptAll(ours, theirs) != multiset{}
    || ExceptAll(theirs, ours) != multiset{}
  }

  function Missing(stored: Tables, incoming: Tables): set<string> {
    incoming.runs.Keys - stored.runs.Keys
  }

  function Appended(stored: Tables, incoming: Tables): Tables {
    var missing := Missing(stored, incoming);
    Tables(stored.runs + (map run | run in missing :: incoming.runs[run]),
           stored.results + Joined(incoming.results, missing))
  }

  function Transaction(stored: Tables, incoming: Tables): Tables {
    if Conflict(stored, incoming) then stored else Appended(stored, incoming)
  }

  class Database {
    var runs: map<string, string>
    var results: seq<Result>

    ghost function Contents(): Tables
      reads this
    {
      Tables(runs, results)
    }

    method Select(rows: seq<Result>, keys: set<string>) returns (joined: seq<Result>)
      ensures joined == Joined(rows, keys)
    {
      joined := [];
      for i := 0 to |rows|
        invariant joined == Joined(rows[..i], keys)
      {
        assert rows[..i + 1][..i] == rows[..i];
        if rows[i].run in keys {
          joined := joined + [rows[i]];
        }
      }
      assert rows[..|rows|] == rows;
    }

    method Append(incoming: Tables) returns (committed: bool)
      modifies this
      ensures committed <==> !Conflict(old(Contents()), incoming)
      ensures Contents() == Transaction(old(Contents()), incoming)
    {
      var pending := incoming.runs.Keys;
      while pending != {}
        invariant pending <= incoming.runs.Keys && Contents() == old(Contents())
        invariant forall run | run in incoming.runs && run !in pending && run in runs :: incoming.runs[run] == runs[run]
        decreases |pending|
      {
        var run :| run in pending;
        if run in runs && incoming.runs[run] != runs[run] {
          return false;
        }
        pending := pending - {run};
      }
      var ours := Select(incoming.results, runs.Keys);
      var theirs := Select(results, incoming.runs.Keys);
      if ExceptAll(ours, theirs) != multiset{} || ExceptAll(theirs, ours) != multiset{} {
        return false;
      }
      var missing := incoming.runs.Keys - runs.Keys;
      var rows := Select(incoming.results, missing);
      runs := runs + (map run | run in missing :: incoming.runs[run]);
      results := results + rows;
      return true;
    }
  }

  // ----- What the set-level comparison means run by run -----

  /** The rows of one run. */
  function Of(t: Tables, run: string): seq<Result> {
    Joined(t.results, {run})
  }

  lemma {:induction false} JoinedCount(rows: seq<Result>, runs: set<string>, row: Result)
    ensures multiset(Joined(rows, runs))[row] == if row.run in runs then multiset(rows)[row] else 0
  {
    if rows != [] {
      JoinedCount(rows[..|rows| - 1], runs, row);
      assert rows == rows[..|rows| - 1] + [rows[|rows| - 1]];
    }
  }

  lemma {:induction false} JoinedConcat(a: seq<Result>, b: seq<Result>, runs: set<string>)
    ensures Joined(a + b, runs) == Joined(a, runs) + Joined(b, runs)
  {
    if b == [] {
      assert a + b == a;
    } else {
      JoinedConcat(a, b[..|b| - 1], runs);
      assert (a + b)[..|a + b| - 1] == a + b[..|b| - 1];
    }
  }

  lemma {:induction false} JoinedTwice(rows: seq<Result>, outer: set<string>, inner: set<string>)
    ensures Joined(Joined(rows, outer), inner) == Joined(rows, outer * inner)
  {
    if rows != [] {
      JoinedTwice(rows[..|rows| - 1], outer, inner);
      var last := rows[|rows| - 1];
      JoinedConcat(Joined(rows[..|rows| - 1], outer), if last.run in outer then [last] else [], inner);
      assert Joined([last], inner) == if last.run in inner then [last] else [];
    }
  }

  lemma {:induction false} JoinedNone(rows: seq<Result>, runs: set<string>)
    requires forall i | 0 <= i < |rows| :: rows[i].run !in runs
    ensures Joined(rows, runs) == []
  {
    if rows != [] {
      JoinedNone(rows[..|rows| - 1], runs);
    }
  }

  lemma SameEitherWay(a: seq<Result>, b: seq<Result>)
    ensures ExceptAll(a, b) == multiset{} && ExceptAll(b, a) == multiset{} <==> multiset(a) == multiset(b)
  {
    if ExceptAll(a, b) == multiset{} && ExceptAll(b, a) == multiset{} {
      forall row: Result
        ensures multiset(a)[row] == multiset(b)[row]
      {
        assert ExceptAll(a, b)[row] == 0 && ExceptAll(b, a)[row] == 0;
      }
    }
  }

  ghost predicate RunDiffers(stored: Tables, incoming: Tables, run: string) {
    && run in stored.runs && run in incoming.runs
    && (stored.runs[run] != incoming.runs[run] || multiset(Of(stored, run)) != multiset(Of(incoming, run)))
  }

  lemma SharedRowCounts(stored: Tables, incoming: Tables, row: Result)
    requires Referenced(stored) && Referenced(incoming)
    ensures multiset(Joined(incoming.results, stored.runs.Keys))[row]
            == if row.run in stored.runs && row.run in incoming.runs then multiset(Of(incoming, row.run))[row] else 0
    ensures multiset(Joined(stored.results, incoming.runs.Keys))[row]
            == if row.run in stored.runs && row.run in incoming.runs then multiset(Of(stored, row.run))[row] else 0
  {
    JoinedCount(incoming.results, stored.runs.Keys, row);
    JoinedCount(stored.results, incoming.runs.Keys, row);
    JoinedCount(incoming.results, {row.run}, row);
    JoinedCount(stored.results, {row.run}, row);
    assert row in incoming.results ==> row.run in incoming.runs;
    assert row in stored.results ==> row.run in stored.runs;
  }

  lemma OfOthers(t: Tables, run: string, row: Result)
    requires row.run != run
    ensures multiset(Of(t, run))[row] == 0
  {
    JoinedCount(t.results, {run}, row);
  }

  /** It aborts exactly when some run present on both sides differs in its metadata or in its multiset of rows. */
  lemma ConflictIsADifferingRun(stored: Tables, incoming: Tables)
    requires Referenced(stored) && Referenced(incoming)
    ensures Conflict(stored, incoming) <==> exists run :: RunDiffers(stored, incoming, run)
  {
    var ours, theirs := Joined(incoming.results, stored.runs.Keys), Joined(stored.results, incoming.runs.Keys);
    SameEitherWay(ours, theirs);
    hide ExceptAll;
    if multiset(ours) == multiset(theirs) {
      forall run | run in stored.runs && run in incoming.runs
        ensures multiset(Of(stored, run)) == multiset(Of(incoming, run))
      {
        forall row: Result
          ensures multiset(Of(stored, run))[row] == multiset(Of(incoming, run))[row]
        {
          if row.run == run {
            SharedRowCounts(stored, incoming, row);
          } else {
            OfOthers(stored, run, row);
            OfOthers(incoming, run, row);
          }
        }
      }
    } else {
      var row: Result :| multiset(ours)[row] != multiset(theirs)[row];
      SharedRowCounts(stored, incoming, row);
      assert RunDiffers(stored, incoming, row.run);
    }
    if MetadataDiffers(stored, incoming) {
      var run :| run in incoming.runs && run in stored.runs && incoming.runs[run] != stored.runs[run];
      assert RunDiffers(stored, incoming, run);
    }
  }

  lemma JoinedRuns(rows: seq<Result>, runs: set<string>)
    ensures forall i | 0 <= i < |Joined(rows, runs)| :: Joined(rows, runs)[i].run in runs
  {
    forall i | 0 <= i < |Joined(rows, runs)|
      ensures Joined(rows, runs)[i].run in runs
    {
      JoinedCount(rows, runs, Joined(rows, runs)[i]);
      assert Joined(rows, runs)[i] in multiset(Joined(rows, runs));
    }
  }

  lemma AppendedRows(stored: Tables, incoming: Tables, run: string)
    requires Referenced(stored)
    ensures Of(Appended(stored, incoming), run)
            == if run in Missing(stored, incoming) then Of(incoming, run) else Of(stored, run)
  {
    var missing := Missing(stored, incoming);
    var added := Joined(incoming.results, missing);
    JoinedConcat(stored.results, added, {run});
    JoinedTwice(incoming.results, missing, {run});
    JoinedRuns(incoming.results, missing);
    if run in missing {
      assert missing * {run} == {run};
      JoinedNone(stored.results, {run});
    } else {
      JoinedNone(added, {run});
    }
  }

  lemma AppendedIsReferenced(stored: Tables, incoming: Tables)
    requires Referenced(stored)
    ensures var after := Appended(stored, incoming);
            && Referenced(after) && stored.results <= after.results
            && after.runs.Keys == stored.runs.Keys + incoming.runs.Keys
    ensures forall run | run in Appended(stored, incoming).runs ::
              Appended(stored, incoming).runs[run]
              == if run in stored.runs then stored.runs[run] else incoming.runs[run]
  {
    var missing := Missing(stored, incoming);
    var added := Joined(incoming.results, missing);
    var after := Appended(stored, incoming);
    JoinedRuns(incoming.results, missing);
    assert after.runs.Keys == stored.runs.Keys + missing;
    forall i | 0 <= i < |after.results|
      ensures after.results[i].run in after.runs
    {
      if i < |stored.results| {
        assert stored.results[i].run in stored.runs;
      } else {
        assert added[i - |stored.results|].run in missing;
      }
    }
  }

  /**
    Otherwise every stored run keeps its metadata and its rows, untouched and in place, every other run of the dataset
    arrives with exactly its own metadata and rows, and nothing else appears.
   */
  lemma AppendAddsExactlyTheMissing(stored: Tables, incoming: Tables, run: string)
    requires Referenced(stored) && !Conflict(stored, incoming)
    ensures var after := Transaction(stored, incoming);
            && Referenced(after) && stored.results <= after.results
            && after.runs.Keys == stored.runs.Keys + incoming.runs.Keys
            && (run in stored.runs ==> after.runs[run] == stored.runs[run] && Of(after, run) == Of(stored, run))
            && (run in incoming.runs && run !in stored.runs ==>
                  after.runs[run] == incoming.runs[run] && Of(after, run) == Of(incoming, run))
            && (run !in stored.runs && run !in incoming.runs ==> run !in after.runs && Of(after, run) == [])
  {
    hide Conflict, Referenced, Of;
    AppendedRows(stored, incoming, run);
    AppendedIsReferenced(stored, incoming);
    if run !in stored.runs {
      AbsentRun(stored, run);
    }
  }

  lemma AbsentRun(t: Tables, run: string)
    requires Referenced(t) && run !in t.runs
    ensures Of(t, run) == []
  {
    JoinedNone(t.results, {run});
  }

  /** Running it again, whether it aborted or not, changes nothing; after a success it commits again. */
  lemma SecondRunIsNoOp(stored: Tables, incoming: Tables)
    requires Referenced(stored) && Referenced(incoming)
    ensures Transaction(Transaction(stored, incoming), incoming) == Transaction(stored, incoming)
    ensures !Conflict(stored, incoming) ==> !Conflict(Transaction(stored, incoming), incoming)
  {
    if !Conflict(stored, incoming) {
      var after := Appended(stored, incoming);
      ConflictIsADifferingRun(stored, incoming);
      AppendedIsReferenced(stored, incoming);
      hide Conflict, Referenced, Of, Appended;
      forall run
        ensures !RunDiffers(after, incoming, run)
      {
        AppendedRows(stored, incoming, run);
        assert !RunDiffers(stored, incoming, run);
      }
      ConflictIsADifferingRun(after, incoming);
      NothingMissing(after, incoming);
    }
  }

  lemma NothingMissing(stored: Tables, incoming: Tables)
    requires incoming.runs.Keys <= stored.runs.Keys
    ensures Appended(stored, incoming) == stored
  {
    assert Missing(stored, incoming) == {};
    JoinedNone(incoming.results, {});
    assert stored.runs + map[] == stored.runs && stored.results + [] == stored.results;
  }
}
