/** Logs that are one report after another: cut into consecutive pieces, each of them judged to be the
    report of its job, and possibly the beginning of one more. */
module Transcripts {

  type Judge<!T, !J> = (seq<T>, J) -> bool

  predicate PieceAt<T, J>(judge: Judge<T, J>, log: seq<T>, cuts: seq<nat>, j: nat, job: J)
    requires j + 1 < |cuts|
  {
    cuts[j] <= cuts[j + 1] <= |log| && judge(log[cuts[j]..cuts[j + 1]], job)
  }

  /** Up to `cuts[|jobs|]` the log is the reports of these jobs, one after another. */
  predicate ReportsOf<T, J>(judge: Judge<T, J>, log: seq<T>, cuts: seq<nat>, jobs: seq<J>) {
    |cuts| == |jobs| + 1 && cuts[0] == 0 && cuts[|jobs|] <= |log| &&
    forall j :: 0 <= j < |jobs| ==> PieceAt(judge, log, cuts, j, jobs[j])
  }

  /** These are all of it. */
  predicate AllReported<T, J>(judge: Judge<T, J>, log: seq<T>, cuts: seq<nat>, jobs: seq<J>) {
    ReportsOf(judge, log, cuts, jobs) && cuts[|jobs|] == |log|
  }

  /** The first part of a report. */
  ghost predicate BeginsReport<T(!new), J>(judge: Judge<T, J>, part: seq<T>, job: J) {
    exists rest :: judge(part + rest, job)
  }

  /** What follows begins the report of the next job. */
  ghost predicate FlightReported<T(!new), J>(judge: Judge<T, J>, log: seq<T>, cuts: seq<nat>, jobs: seq<J>, job: J) {
    ReportsOf(judge, log, cuts, jobs) && BeginsReport(judge, log[cuts[|jobs|]..], job)
  }

  lemma OneMoreReport<T, J>(judge: Judge<T, J>, log: seq<T>, cuts: seq<nat>, jobs: seq<J>, more: seq<T>, job: J)
    requires AllReported(judge, log, cuts, jobs) && judge(more, job)
    ensures AllReported(judge, log + more, cuts + [|log + more|], jobs + [job])
  {
    var cuts', all := cuts + [|log + more|], log + more;
    forall j | 0 <= j < |jobs + [job]| ensures PieceAt(judge, all, cuts', j, (jobs + [job])[j]) {
      if j < |jobs| {
        assert PieceAt(judge, log, cuts, j, jobs[j]);
        assert all[cuts[j]..cuts[j + 1]] == log[cuts[j]..cuts[j + 1]];
      } else {
        assert all[|log|..|all|] == more;
      }
    }
  }

  lemma PartOfNext<T(!new), J>(judge: Judge<T, J>, log: seq<T>, cuts: seq<nat>, jobs: seq<J>,
                              next: seq<T>, done: nat, job: J)
    requires AllReported(judge, log, cuts, jobs) && judge(next, job) && done <= |next|
    ensures FlightReported(judge, log + next[..done], cuts, jobs, job)
  {
    var all := log + next[..done];
    forall j | 0 <= j < |jobs| ensures PieceAt(judge, all, cuts, j, jobs[j]) {
      assert PieceAt(judge, log, cuts, j, jobs[j]);
      assert all[cuts[j]..cuts[j + 1]] == log[cuts[j]..cuts[j + 1]];
    }
    assert all[|log|..] == next[..done];
    assert next[..done] + next[done..] == next;
  }
}
