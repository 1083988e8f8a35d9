/** What the telemetry files of a run of both gateways hold, and how many rows their join has. */
module RunTelemetry {
  import opened Exchange
  import opened Responses
  import opened Gates
  import opened HandlerProperties
  import opened Telemetry
  import opened System
  import P = Pipeline

  /**
   * Gateway A writes one record for each transaction it marks ACKED; `stamp(j)` are the times of the j-th finished.
   * An append that fails is only logged: `kept(j)` says whether the record reached the file.
   */
  function LogA(finished: seq<Transaction>, stamp: nat -> TimesA, kept: nat -> bool): seq<Record<TimesA>> {
    if finished == [] then []
    else
      var n := |finished| - 1;
      LogA(finished[..n], stamp, kept) +
      if finished[n].state.Acked? && kept(n) then [Record(finished[n].id, "acked", stamp(n))] else []
  }

  /** The records one handler of gateway B writes. */
  function HandlerLog(trace: seq<Gates.Event>, times: TimesB): seq<Record<TimesB>> {
    if trace == [] then []
    else
      var last := trace[|trace| - 1];
      HandlerLog(trace[..|trace| - 1], times) + if last.Logged? then [Record(last.id, "ACKED", times)] else []
  }

  /** The records of all of gateway B's handlers, by connection; those of connection n are lost unless `kept(n)`. */
  function LogB(links: seq<Link>, stamp: nat -> TimesB, kept: nat -> bool): seq<Record<TimesB>> {
    if links == [] then []
    else
      var n := |links| - 1;
      LogB(links[..n], stamp, kept) + if kept(n) then HandlerLog(links[n].handler.trace, stamp(n)) else []
  }

  function CountLogged(trace: seq<Gates.Event>, id: string): nat {
    if trace == [] then 0
    else
      CountLogged(trace[..|trace| - 1], id) + if trace[|trace| - 1] == Logged(id) then 1 else 0
  }

  /** Records for `id` made on connections that gateway A did not open. */
  function StrangerRecords(links: seq<Link>, id: string): nat {
    if links == [] then 0
    else
      var last := links[|links| - 1];
      StrangerRecords(links[..|links| - 1], id) + if last.owner.None? then CountLogged(last.handler.trace, id) else 0
  }

  lemma AppendCount<T>(rs: seq<Record<T>>, r: Record<T>, id: string)
    requires r.state == "acked" || r.state == "ACKED"
    ensures AckCount(rs + [r], id) == AckCount(rs, id) + if r.id == id then 1 else 0
  {
    BothSpellings();
    assert (rs + [r])[..|rs|] == rs;
  }

  lemma {:induction false} HandlerLogCount(trace: seq<Gates.Event>, times: TimesB, id: string)
    ensures AckCount(HandlerLog(trace, times), id) == CountLogged(trace, id)
  {
    if trace != [] {
      var n := |trace| - 1;
      HandlerLogCount(trace[..n], times, id);
      if trace[n].Logged? {
        AppendCount(HandlerLog(trace[..n], times), Record(trace[n].id, "ACKED", times), id);
      } else {
        assert HandlerLog(trace, times) == HandlerLog(trace[..n], times);
      }
    }
  }

  lemma {:induction false} OnlyLogged(trace: seq<Gates.Event>, id: string, other: string)
    requires forall i :: 0 <= i < |trace| && trace[i].Logged? ==> trace[i] == Logged(id)
    ensures CountLogged(trace, other) == if other == id then CountLogs(trace) else 0
  {
    if trace != [] {
      OnlyLogged(trace[..|trace| - 1], id, other);
    }
  }

  lemma LayoutLogs(trace: seq<Gates.Event>, writes: seq<Response>, n: nat, id: string, c: Handler.Connection)
    requires c.trace == trace && c.writes == writes && Layout(c, n)
    requires writes != [] && writes[0].AckOf? ==> writes[0].id == id
    ensures forall i :: 0 <= i < |trace| && trace[i].Logged? ==> trace[i] == Logged(id)
  {
  }

  /** A handler that serves gateway A logs the id of the transaction that opened the connection. */
  lemma OwnedLinkLogs(net: Net, l: Link, id: string)
    requires LinkInv(net, l) && l.owner.Some?
    ensures CountLogged(l.handler.trace, id) == if Owns(l, id) then CountLogs(l.handler.trace) else 0
  {
    var c := l.handler;
    TraceLayout(net.gateway, l.peer, c);
    if c.writes != [] && c.writes[0].AckOf? {
      FirstAnswerOnOwnedLink(net, l);
    }
    LayoutLogs(c.trace, c.writes, Lead(net.gateway, l.peer, c), l.owner.value.id, c);
    OnlyLogged(c.trace, l.owner.value.id, id);
  }

  /** What a link adds to the count of records of `id`. */
  lemma LinkLogCount(net: Net, l: Link, log: seq<Record<TimesB>>, times: TimesB, id: string)
    requires LinkInv(net, l)
    ensures AckCount(log + HandlerLog(l.handler.trace, times), id) ==
            AckCount(log, id) +
            (if Owns(l, id) then CountLogs(l.handler.trace) else 0) +
            (if l.owner.None? then CountLogged(l.handler.trace, id) else 0)
  {
    HandlerLogCount(l.handler.trace, times, id);
    AckCountConcat(log, HandlerLog(l.handler.trace, times), id);
    if l.owner.Some? {
      OwnedLinkLogs(net, l, id);
    }
  }

  lemma AllLinksSplit(net: Net, links: seq<Link>)
    requires links != [] && AllLinks(net, links)
    ensures AllLinks(net, links[..|links| - 1]) && LinkInv(net, links[|links| - 1])
  {
    assert links[|links| - 1] in links;
  }

  /** No more records than B's handlers wrote, and exactly those if no append failed. */
  lemma {:induction false} LogBCount(net: Net, links: seq<Link>, stamp: nat -> TimesB, kept: nat -> bool, id: string)
    requires AllLinks(net, links)
    ensures AckCount(LogB(links, stamp, kept), id) <= Records(links, id) + StrangerRecords(links, id)
    ensures (forall n: nat :: n < |links| ==> kept(n)) ==>
              AckCount(LogB(links, stamp, kept), id) == Records(links, id) + StrangerRecords(links, id)
  {
    if links != [] {
      var n := |links| - 1;
      AllLinksSplit(net, links);
      LogBCount(net, links[..n], stamp, kept, id);
      LinkLogCount(net, links[n], LogB(links[..n], stamp, kept), stamp(n), id);
      assert LogB(links[..n], stamp, kept) + [] == LogB(links[..n], stamp, kept);
    }
  }

  /** What A's file holds: the record of each ACKED transaction that was not lost, with its own times. */
  lemma {:induction false} LogAHolds(finished: seq<Transaction>, stamp: nat -> TimesA, kept: nat -> bool,
                                     r: Record<TimesA>)
    ensures r in LogA(finished, stamp, kept) <==>
            exists j: nat :: j < |finished| && finished[j].state.Acked? && kept(j)
                             && r == Record(finished[j].id, "acked", stamp(j))
  {
    if finished != [] {
      var n: nat := |finished| - 1;
      LogAHolds(finished[..n], stamp, kept, r);
      forall j: nat | j < n
        ensures finished[..n][j] == finished[j]
      {
      }
    }
  }

  lemma {:induction false} HandlerLogHolds(trace: seq<Gates.Event>, times: TimesB, r: Record<TimesB>)
    ensures r in HandlerLog(trace, times) <==> Logged(r.id) in trace && r == Record(r.id, "ACKED", times)
  {
    if trace != [] {
      var n := |trace| - 1;
      HandlerLogHolds(trace[..n], times, r);
      assert trace == trace[..n] + [trace[n]];
    }
  }

  /** What B's file holds: a record for each telemetry event of a handler that was not lost, with its own times. */
  lemma {:induction false} LogBHolds(links: seq<Link>, stamp: nat -> TimesB, kept: nat -> bool, r: Record<TimesB>)
    ensures r in LogB(links, stamp, kept) <==>
            exists n: nat :: n < |links| && kept(n) && Logged(r.id) in links[n].handler.trace
                             && r == Record(r.id, "ACKED", stamp(n))
  {
    if links != [] {
      var n: nat := |links| - 1;
      LogBHolds(links[..n], stamp, kept, r);
      HandlerLogHolds(links[n].handler.trace, stamp(n), r);
      forall j: nat | j < n
        ensures links[..n][j] == links[j]
      {
      }
    }
  }

  /** A transaction with this id was ACKED and its record reached the file. */
  ghost predicate RecordedIn(finished: seq<Transaction>, kept: nat -> bool, id: string) {
    exists j: nat :: j < |finished| && finished[j].id == id && finished[j].state.Acked? && kept(j)
  }

  lemma RecordedInFront(finished: seq<Transaction>, kept: nat -> bool, id: string)
    requires finished != [] && P.Distinct(P.Ids(finished))
    ensures var n := |finished| - 1;
            RecordedIn(finished, kept, id) <==>
            RecordedIn(finished[..n], kept, id) != (finished[n].id == id && finished[n].state.Acked? && kept(n))
  {
    var n: nat := |finished| - 1;
    assert finished[n].id == id && finished[n].state.Acked? && kept(n) ==> RecordedIn(finished, kept, id);
    forall j: nat | j < n && finished[j].id == id && finished[j].state.Acked? && kept(j)
      ensures RecordedIn(finished[..n], kept, id)
    {
      assert finished[..n][j] == finished[j];
    }
    if RecordedIn(finished[..n], kept, id) {
      var j: nat :| j < n && finished[..n][j].id == id && finished[..n][j].state.Acked? && kept(j);
      assert P.Ids(finished)[j] != P.Ids(finished)[n];
      assert finished[j].id == id && finished[j].state.Acked?;
    }
  }

  lemma {:induction false} LogACount(finished: seq<Transaction>, stamp: nat -> TimesA, kept: nat -> bool, id: string)
    requires P.Distinct(P.Ids(finished))
    ensures AckCount(LogA(finished, stamp, kept), id) == if RecordedIn(finished, kept, id) then 1 else 0
  {
    if finished != [] {
      var n := |finished| - 1;
      var front, tx := finished[..n], finished[n];
      assert P.Ids(front) == P.Ids(finished)[..n];
      LogACount(front, stamp, kept, id);
      RecordedInFront(finished, kept, id);
      if tx.state.Acked? && kept(n) {
        AppendCount(LogA(front, stamp, kept), Record(tx.id, "acked", stamp(n)), id);
      } else {
        assert LogA(finished, stamp, kept) == LogA(front, stamp, kept);
      }
    }
  }

  lemma FinishedAreDistinct(s: P.State)
    requires P.Conserved(s)
    ensures P.Distinct(P.Ids(s.finished))
  {
    P.LineIsDistinct(s);
    assert P.Line(s)[..|s.finished|] == P.Ids(s.finished);
  }

  lemma ZeroOrOneTimes(m: nat, n: nat)
    requires m <= 1
    ensures m * n == if m == 1 then n else 0
  {
  }

  lemma RowsOfSingle(as_: seq<Record<TimesA>>, bs: seq<Record<TimesB>>, id: string)
    requires AckCount(as_, id) <= 1
    ensures RowCount(Collect(as_, bs), id) == if AckCount(as_, id) == 1 then AckCount(bs, id) else 0
  {
    CollectCount(as_, bs, id);
    ZeroOrOneTimes(AckCount(as_, id), AckCount(bs, id));
  }

  /** Which appends reached the two files, and the times of the records. */
  datatype Files = Files(stampA: nat -> TimesA, keptA: nat -> bool, stampB: nat -> TimesB, keptB: nat -> bool)

  function FileA(files: Files, finished: seq<Transaction>): seq<Record<TimesA>> {
    LogA(finished, files.stampA, files.keptA)
  }

  function FileB(files: Files, links: seq<Link>): seq<Record<TimesB>> {
    LogB(links, files.stampB, files.keptB)
  }

  /** The rows of `id` in the join, from what is known of the state. */
  lemma RowsOfLogs(net: Net, finished: seq<Transaction>, links: seq<Link>, id: string, files: Files)
    requires P.Distinct(P.Ids(finished)) && AllLinks(net, links)
    ensures var rows := RowCount(Collect(FileA(files, finished), FileB(files, links)), id);
            && (!RecordedIn(finished, files.keptA, id) ==> rows == 0)
            && rows <= Records(links, id) + StrangerRecords(links, id)
            && (RecordedIn(finished, files.keptA, id) && (forall n: nat :: n < |links| ==> files.keptB(n)) ==>
                  rows == Records(links, id) + StrangerRecords(links, id))
  {
    LogBCount(net, links, files.stampB, files.keptB, id);
    LogACount(finished, files.stampA, files.keptA, id);
    RowsOfSingle(FileA(files, finished), FileB(files, links), id);
  }

  lemma RunFacts(net: Net, events: seq<System.Event>, worlds: seq<World>, i: nat)
    requires JsonLaw(net.dumps, net.loads) && IsRun(net, events, worlds) && i <= |events|
    ensures P.Distinct(P.Ids(worlds[i].pipeline.finished)) && AllLinks(net, worlds[i].links)
  {
    RunsKeepPipelineInv(net, events, worlds, i);
    FinishedAreDistinct(worlds[i].pipeline);
    RunsKeepLinked(net, events, worlds, i);
  }

  /**
   * In every run, and whatever appends fail, the join of the two files has no row for a transaction without an
   * ACKED record at A; for one with it, the rows are gateway B's records of it that reached the file, all of them
   * if none was lost, and on A's own connections they are at most A's attempts.
   */
  lemma JoinedRows(net: Net, events: seq<System.Event>, worlds: seq<World>, i: nat, j: nat, id: string, files: Files)
    requires JsonLaw(net.dumps, net.loads) && IsRun(net, events, worlds) && i <= |events|
    ensures var w := worlds[i];
            var rows := RowCount(Collect(FileA(files, w.pipeline.finished), FileB(files, w.links)), id);
            && (!RecordedIn(w.pipeline.finished, files.keptA, id) ==> rows == 0)
            && rows <= Records(w.links, id) + StrangerRecords(w.links, id)
            && (RecordedIn(w.pipeline.finished, files.keptA, id) &&
                (forall n: nat :: n < |w.links| ==> files.keptB(n)) ==>
                  rows == Records(w.links, id) + StrangerRecords(w.links, id))
            && (j < |w.pipeline.finished| && w.pipeline.finished[j].id == id ==>
                  rows <= w.pipeline.finished[j].retryCount + StrangerRecords(w.links, id))
  {
    var w := worlds[i];
    RunFacts(net, events, worlds, i);
    RowsOfLogs(net, w.pipeline.finished, w.links, id, files);
    DuplicateBound(net, events, worlds, i, id);
  }
}
