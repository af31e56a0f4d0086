/** The denial statistics a profile keeps: `UpdateStatus` in
    `shield/pkg/apis/resourcesigningprofile/v1alpha1/types.go`. */
module Status {
  datatype Request = Request(operation: string, namespace: string, apiGroup: string, apiVersion: string,
                             kind: string, name: string, userName: string)

  /** `GroupVersionKind.String()`. */
  function GroupVersionKind(r: Request): string {
    r.apiGroup + "/" + r.apiVersion + ", Kind=" + r.kind
  }

  datatype Summary = Summary(gvk: string, count: int)

  datatype Result = Result(message: string, timestamp: string)

  datatype Detail = Detail(request: Request, result: Result)

  datatype Statistics = Statistics(denyCount: int, summary: seq<Summary>, latest: seq<Detail>)

  const MAX_HISTORY_LENGTH := 3

  /** The last entry for `gvk`, or -1. */
  function SummaryIndex(summary: seq<Summary>, gvk: string): (i: int)
    ensures -1 <= i < |summary|
    ensures i >= 0 ==> summary[i].gvk == gvk
    ensures forall j :: i < j < |summary| ==> summary[j].gvk != gvk
  {
    if summary == [] then -1
    else
      var n := |summary| - 1;
      if summary[n].gvk == gvk then n else SummaryIndex(summary[..n], gvk)
  }

  function Counted(summary: seq<Summary>, gvk: string): seq<Summary> {
    var i := SummaryIndex(summary, gvk);
    if i < 0 then summary + [Summary(gvk, 1)] else summary[i := Summary(gvk, summary[i].count + 1)]
  }

  function Newest(latest: seq<Detail>, d: Detail): seq<Detail> {
    var all := [d] + latest;
    if |all| > MAX_HISTORY_LENGTH then all[..MAX_HISTORY_LENGTH] else all
  }

  function Updated(s: Statistics, d: Detail): Statistics {
    Statistics(s.denyCount + 1, Counted(s.summary, GroupVersionKind(d.request)), Newest(s.latest, d))
  }

  class ResourceSigningProfile {
    var status: Statistics

    constructor ()
      ensures status == Statistics(0, [], [])
    {
      status := Statistics(0, [], []);
    }

    /** `UpdateStatus`, with the time stamp as a parameter. */
    method UpdateStatus(request: Request, errMsg: string, timestamp: string)
      modifies this
      ensures status == Updated(old(status), Detail(request, Result(errMsg, timestamp)))
    {
      hide GroupVersionKind;
      status := status.(denyCount := status.denyCount + 1);
      var gvk := GroupVersionKind(request);
      var sumId := -1;
      var summary := status.summary;
      for i := 0 to |summary|
        invariant -1 <= sumId < i
        invariant sumId >= 0 ==> summary[sumId].gvk == gvk
        invariant forall j :: sumId < j < i ==> summary[j].gvk != gvk
      {
        if gvk == summary[i].gvk { sumId := i; }
      }
      assert sumId == SummaryIndex(summary, gvk);
      if sumId < 0 {
        status := status.(summary := summary + [Summary(gvk, 1)]);
      } else {
        status := status.(summary := summary[sumId := Summary(gvk, summary[sumId].count + 1)]);
      }
      var newLatest := [Detail(request, Result(errMsg, timestamp))] + status.latest;
      if |newLatest| > MAX_HISTORY_LENGTH { newLatest := newLatest[..MAX_HISTORY_LENGTH]; }
      status := status.(latest := newLatest);
    }
  }

  // ---- Every run of denials ----

  /** The statistics after a run of denials, oldest first, from none. */
  function StatisticsOf(denials: seq<Detail>): Statistics {
    if denials == [] then Statistics(0, [], [])
    else Updated(StatisticsOf(denials[..|denials| - 1]), denials[|denials| - 1])
  }

  function CountOf(denials: seq<Detail>, gvk: string): nat {
    if denials == [] then 0
    else CountOf(denials[..|denials| - 1], gvk) +
         if GroupVersionKind(denials[|denials| - 1].request) == gvk then 1 else 0
  }

  function Total(summary: seq<Summary>): int {
    if summary == [] then 0 else Total(summary[..|summary| - 1]) + summary[|summary| - 1].count
  }

  lemma {:induction false} TotalUpdate(summary: seq<Summary>, i: nat, s: Summary)
    requires i < |summary|
    ensures Total(summary[i := s]) == Total(summary) - summary[i].count + s.count
  {
    var n := |summary| - 1;
    if i < n {
      TotalUpdate(summary[..n], i, s);
      assert summary[i := s][..n] == summary[..n][i := s];
    } else {
      assert summary[i := s][..n] == summary[..n];
    }
  }

  lemma TotalCounted(summary: seq<Summary>, gvk: string)
    ensures Total(Counted(summary, gvk)) == Total(summary) + 1
  {
    var i := SummaryIndex(summary, gvk);
    if i >= 0 {
      TotalUpdate(summary, i, Summary(gvk, summary[i].count + 1));
    } else {
      assert (summary + [Summary(gvk, 1)])[..|summary|] == summary;
    }
  }

  ghost predicate OneEntryEach(summary: seq<Summary>) {
    forall i, j :: 0 <= i < j < |summary| ==> summary[i].gvk != summary[j].gvk
  }

  ghost predicate HasEntry(summary: seq<Summary>, gvk: string, count: int) {
    exists i :: 0 <= i < |summary| && summary[i] == Summary(gvk, count)
  }

  /** An entry exists exactly for the kinds that were denied, with their exact counts. */
  ghost predicate Exact(summary: seq<Summary>, denials: seq<Detail>) {
    && OneEntryEach(summary)
    && (forall i :: 0 <= i < |summary| ==> 0 < summary[i].count == CountOf(denials, summary[i].gvk))
    && (forall gvk :: CountOf(denials, gvk) > 0 ==> HasEntry(summary, gvk, CountOf(denials, gvk)))
  }

  lemma CountedExact(summary: seq<Summary>, denials: seq<Detail>, d: Detail)
    requires Exact(summary, denials)
    ensures Exact(Counted(summary, GroupVersionKind(d.request)), denials + [d])
  {
    hide GroupVersionKind;
    var gvk := GroupVersionKind(d.request);
    var after, more := Counted(summary, gvk), denials + [d];
    assert more[..|denials|] == denials;
    forall g ensures CountOf(more, g) == CountOf(denials, g) + if g == gvk then 1 else 0 {}
    var at := SummaryIndex(summary, gvk);
    if at < 0 {
      assert CountOf(denials, gvk) == 0;
      assert after[|summary|] == Summary(gvk, 1);
    } else {
      assert after[at] == Summary(gvk, CountOf(more, gvk));
    }
    forall g | CountOf(more, g) > 0 ensures HasEntry(after, g, CountOf(more, g)) {
      if g != gvk {
        var i :| 0 <= i < |summary| && summary[i] == Summary(g, CountOf(denials, g));
        assert after[i] == summary[i];
      }
    }
  }

  /** Conservation over every run: the total, one entry per kind with its exact count, and the
      most recent denials, newest first, at most three. */
  lemma {:induction false} StatusConservation(denials: seq<Detail>)
    ensures var s := StatisticsOf(denials);
            && s.denyCount == |denials| == Total(s.summary)
            && Exact(s.summary, denials)
            && |s.latest| == (if |denials| < MAX_HISTORY_LENGTH then |denials| else MAX_HISTORY_LENGTH)
            && forall i :: 0 <= i < |s.latest| ==> s.latest[i] == denials[|denials| - 1 - i]
  {
    hide Exact, Counted, GroupVersionKind;
    if denials == [] {
      NothingCounted();
    } else {
      var n := |denials| - 1;
      var front, d := denials[..n], denials[n];
      StatusConservation(front);
      assert denials == front + [d];
      var s := StatisticsOf(front);
      CountedExact(s.summary, front, d);
      TotalCounted(s.summary, GroupVersionKind(d.request));
    }
  }

  lemma NothingCounted()
    ensures Exact([], [])
  {}

  lemma {:induction false} UpToMark(a: string, a': string, b: string, b': string, mark: char)
    requires mark !in a && mark !in a' && a + [mark] + b == a' + [mark] + b'
    ensures a == a' && b == b'
  {
    var s := a + [mark] + b;
    assert s[|a|] == mark && s[|a'|] == mark;
    assert forall i :: 0 <= i < |a| ==> s[i] == a[i];
    assert forall i :: 0 <= i < |a'| ==> s[i] == a'[i];
    assert |a| == |a'|;
    assert a == s[..|a|] && b == s[|a| + 1..];
  }

  /** Two requests share an entry only if they agree in group, version and kind, given that
      groups hold no slash and versions no comma. */
  lemma GroupVersionKindInjective(r: Request, q: Request)
    requires '/' !in r.apiGroup && '/' !in q.apiGroup && ',' !in r.apiVersion && ',' !in q.apiVersion
    requires GroupVersionKind(r) == GroupVersionKind(q)
    ensures r.apiGroup == q.apiGroup && r.apiVersion == q.apiVersion && r.kind == q.kind
  {
    var rest, rest' := r.apiVersion + ", Kind=" + r.kind, q.apiVersion + ", Kind=" + q.kind;
    assert GroupVersionKind(r) == r.apiGroup + ['/'] + rest;
    assert GroupVersionKind(q) == q.apiGroup + ['/'] + rest';
    UpToMark(r.apiGroup, q.apiGroup, rest, rest', '/');
    assert rest == r.apiVersion + [','] + (" Kind=" + r.kind);
    assert rest' == q.apiVersion + [','] + (" Kind=" + q.kind);
    UpToMark(r.apiVersion, q.apiVersion, " Kind=" + r.kind, " Kind=" + q.kind, ',');
    assert r.kind == (" Kind=" + r.kind)[6..];
    assert q.kind == (" Kind=" + q.kind)[6..];
  }
}
