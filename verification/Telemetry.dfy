/** The two joins of the gateways' telemetry files, and the latency decomposition computed from the second. */
module Telemetry {

  /** One JSONL record: the transaction, its `state` text and the times it carries. */
  datatype Record<T> = Record(id: string, state: string, times: T)

  datatype TimesA = TimesA(received: int, extracted: int, signed: int, acked: int)

  datatype TimesB = TimesB(received: int, verified: int, ingested: int)

  /** A line of a telemetry file: empty after stripping, not JSON, or a record. */
  datatype Line<T> = Blank | Malformed | Parsed(record: Record<T>)

  /** The records among the lines, in order. */
  function Kept<T>(lines: seq<Line<T>>): seq<Record<T>> {
    if lines == [] then []
    else
      var last := lines[|lines| - 1];
      Kept(lines[..|lines| - 1]) + if last.Parsed? then [last.record] else []
  }

  lemma KeptOneMore<T>(lines: seq<Line<T>>, l: Line<T>)
    ensures Kept(lines + [l]) == Kept(lines) + if l.Parsed? then [l.record] else []
  {
    assert (lines + [l])[..|lines|] == lines;
  }

  lemma {:induction false} KeptConcat<T>(x: seq<Line<T>>, y: seq<Line<T>>)
    ensures Kept(x + y) == Kept(x) + Kept(y)
    decreases |y|
  {
    if |y| == 0 {
      assert x + y == x;
    } else {
      var front, last := y[..|y| - 1], y[|y| - 1];
      KeptConcat(x, front);
      KeptOneMore(front, last);
      KeptOneMore(x + front, last);
      assert y == front + [last] && x + y == x + front + [last];
    }
  }

  /** Lines are kept or skipped one by one, and in order. */
  lemma KeptLineByLine<T>(x: seq<Line<T>>, y: seq<Line<T>>, r: Record<T>)
    ensures Kept(x + y) == Kept(x) + Kept(y)
    ensures Kept(x + [Blank] + y) == Kept(x + y) && Kept(x + [Malformed] + y) == Kept(x + y)
    ensures Kept(x + [Parsed(r)] + y) == Kept(x) + [r] + Kept(y)
  {
    KeptConcat(x, y);
    KeptConcat(x + [Blank], y);
    KeptConcat(x + [Malformed], y);
    KeptConcat(x + [Parsed(r)], y);
    KeptOneMore(x, Blank);
    KeptOneMore(x, Malformed);
    KeptOneMore(x, Parsed(r));
  }

  /** `_parse_jsonl`: blank and malformed lines are skipped, nothing else is lost or reordered. */
  method ParseJsonl<T>(lines: seq<Line<T>>) returns (events: seq<Record<T>>)
    ensures events == Kept(lines)
  {
    events := [];
    for i := 0 to |lines|
      invariant events == Kept(lines[..i])
    {
      match lines[i] {
        case Blank =>
        case Malformed =>
        case Parsed(record) => events := events + [record];
      }
      assert lines[..i + 1][..i] == lines[..i];
    }
    assert lines[..|lines|] == lines;
  }

  function UpperChar(c: char): char {
    if 'a' <= c <= 'z' then (c as int - 32) as char else c
  }

  /** `state.upper() == "ACKED"`; gateway A writes the state in lower case, gateway B in upper case. */
  predicate IsAcked(state: string) {
    seq(|state|, i requires 0 <= i < |state| => UpperChar(state[i])) == "ACKED"
  }

  /** The word in upper case, lower case or any mixture, and nothing else. */
  lemma AckedSpelling(state: string)
    ensures IsAcked(state) <==>
            && |state| == 5 && state[0] in {'A', 'a'} && state[1] in {'C', 'c'} && state[2] in {'K', 'k'}
            && state[3] in {'E', 'e'} && state[4] in {'D', 'd'}
  {
    var up := seq(|state|, i requires 0 <= i < |state| => UpperChar(state[i]));
    if |state| == 5 {
      assert up == [UpperChar(state[0]), UpperChar(state[1]), UpperChar(state[2]), UpperChar(state[3]),
                    UpperChar(state[4])];
      assert "ACKED" == ['A', 'C', 'K', 'E', 'D'];
    }
  }

  lemma BothSpellings()
    ensures IsAcked("acked") && IsAcked("ACKED") && !IsAcked("failed")
  {
    var up := seq(|"failed"|, i requires 0 <= i < |"failed"| => UpperChar("failed"[i]));
    assert up[0] == 'F' && "ACKED"[0] == 'A';
  }

  function Acked<T>(rs: seq<Record<T>>): seq<Record<T>> {
    if rs == [] then []
    else
      var last := rs[|rs| - 1];
      Acked(rs[..|rs| - 1]) + if IsAcked(last.state) then [last] else []
  }

  datatype Row = Row(a: Record<TimesA>, b: Record<TimesB>)

  /** The rows one record of gateway A contributes to an inner join. */
  function Matches(a: Record<TimesA>, bs: seq<Record<TimesB>>): seq<Row> {
    if bs == [] then []
    else
      var last := bs[|bs| - 1];
      Matches(a, bs[..|bs| - 1]) + if last.id == a.id then [Row(a, last)] else []
  }

  function Merge(as_: seq<Record<TimesA>>, bs: seq<Record<TimesB>>): seq<Row> {
    if as_ == [] then [] else Merge(as_[..|as_| - 1], bs) + Matches(as_[|as_| - 1], bs)
  }

  /** The join on the id, empty if one side has no records. */
  function Join(a: seq<Record<TimesA>>, b: seq<Record<TimesB>>): seq<Row> {
    if a == [] || b == [] then [] else Merge(a, b)
  }

  /** `collect`: filter both files to ACKED, then join on the id. */
  function Collect(as_: seq<Record<TimesA>>, bs: seq<Record<TimesB>>): seq<Row> {
    Join(Acked(as_), Acked(bs))
  }

  // ----- Counting rows per transaction -----

  /** ACKED records of `id`, counted in the unfiltered file. */
  function AckCount<T>(rs: seq<Record<T>>, id: string): nat {
    if rs == [] then 0
    else
      var last := rs[|rs| - 1];
      AckCount(rs[..|rs| - 1], id) + if IsAcked(last.state) && last.id == id then 1 else 0
  }

  function RowCount(rows: seq<Row>, id: string): nat {
    if rows == [] then 0
    else
      var last := rows[|rows| - 1];
      RowCount(rows[..|rows| - 1], id) + if last.a.id == id && last.b.id == id then 1 else 0
  }

  lemma {:induction false} RowCountConcat(x: seq<Row>, y: seq<Row>, id: string)
    ensures RowCount(x + y, id) == RowCount(x, id) + RowCount(y, id)
    decreases |y|
  {
    if y == [] {
      assert x + y == x;
    } else {
      var n := |y| - 1;
      RowCountConcat(x, y[..n], id);
      assert (x + y)[..|x| + n] == x + y[..n];
    }
  }

  lemma {:induction false} AckCountConcat<T>(x: seq<Record<T>>, y: seq<Record<T>>, id: string)
    ensures AckCount(x + y, id) == AckCount(x, id) + AckCount(y, id)
    decreases |y|
  {
    if y == [] {
      assert x + y == x;
    } else {
      var n := |y| - 1;
      AckCountConcat(x, y[..n], id);
      assert (x + y)[..|x| + n] == x + y[..n];
    }
  }

  ghost predicate AllAcked<T>(rs: seq<Record<T>>) {
    forall i :: 0 <= i < |rs| ==> IsAcked(rs[i].state)
  }

  lemma {:induction false} MatchesCount(a: Record<TimesA>, bs: seq<Record<TimesB>>, id: string)
    requires AllAcked(bs)
    ensures RowCount(Matches(a, bs), id) == if a.id == id then AckCount(bs, id) else 0
  {
    if bs != [] {
      var n := |bs| - 1;
      MatchesCount(a, bs[..n], id);
      var last: seq<Row> := if bs[n].id == a.id then [Row(a, bs[n])] else [];
      RowCountConcat(Matches(a, bs[..n]), last, id);
      assert last != [] ==> last[..0] == [];
    }
  }

  lemma OneMore(m: nat, n: nat)
    ensures (m + 1) * n == m * n + n
  {
  }

  lemma {:induction false} MergeCount(as_: seq<Record<TimesA>>, bs: seq<Record<TimesB>>, id: string)
    requires AllAcked(as_) && AllAcked(bs)
    ensures RowCount(Merge(as_, bs), id) == AckCount(as_, id) * AckCount(bs, id)
  {
    if as_ != [] {
      var n := |as_| - 1;
      MergeCount(as_[..n], bs, id);
      RowCountConcat(Merge(as_[..n], bs), Matches(as_[n], bs), id);
      MatchesCount(as_[n], bs, id);
      OneMore(AckCount(as_[..n], id), AckCount(bs, id));
    }
  }

  lemma {:induction false} Filtered<T>(rs: seq<Record<T>>, id: string)
    ensures AllAcked(Acked(rs))
    ensures AckCount(Acked(rs), id) == AckCount(rs, id)
  {
    if rs != [] {
      var n := |rs| - 1;
      Filtered(rs[..n], id);
      if IsAcked(rs[n].state) {
        AckCountConcat(Acked(rs[..n]), [rs[n]], id);
        assert [rs[n]][..0] == [];
      } else {
        assert Acked(rs) == Acked(rs[..n]);
      }
    }
  }

  lemma JoinCount(a: seq<Record<TimesA>>, b: seq<Record<TimesB>>, id: string)
    requires AllAcked(a) && AllAcked(b)
    ensures RowCount(Join(a, b), id) == AckCount(a, id) * AckCount(b, id)
  {
    if a == [] {
      assert AckCount(a, id) == 0;
    } else if b == [] {
      assert AckCount(b, id) == 0;
    } else {
      MergeCount(a, b, id);
    }
  }

  /** The plain join has, for each id, one row for every pair of its ACKED records. */
  lemma CollectCount(as_: seq<Record<TimesA>>, bs: seq<Record<TimesB>>, id: string)
    ensures RowCount(Collect(as_, bs), id) == AckCount(as_, id) * AckCount(bs, id)
  {
    Filtered(as_, id);
    Filtered(bs, id);
    JoinCount(Acked(as_), Acked(bs), id);
  }

  lemma {:induction false} AckedAre<T>(rs: seq<Record<T>>, r: Record<T>)
    ensures r in Acked(rs) <==> r in rs && IsAcked(r.state)
  {
    if rs != [] {
      var n := |rs| - 1;
      AckedAre(rs[..n], r);
      assert rs == rs[..n] + [rs[n]];
    }
  }

  lemma {:induction false} MatchesAre(a: Record<TimesA>, bs: seq<Record<TimesB>>, row: Row)
    ensures row in Matches(a, bs) <==> row.a == a && row.b in bs && row.a.id == row.b.id
  {
    if bs != [] {
      var n := |bs| - 1;
      MatchesAre(a, bs[..n], row);
      assert bs == bs[..n] + [bs[n]];
    }
  }

  lemma {:induction false} MergeIs(as_: seq<Record<TimesA>>, bs: seq<Record<TimesB>>, row: Row)
    ensures row in Merge(as_, bs) <==> row.a in as_ && row.b in bs && row.a.id == row.b.id
  {
    if as_ != [] {
      var n := |as_| - 1;
      MergeIs(as_[..n], bs, row);
      MatchesAre(as_[n], bs, row);
      assert as_ == as_[..n] + [as_[n]];
    }
  }

  /** The rows are exactly the pairs of ACKED records of one transaction. */
  lemma CollectedRows(as_: seq<Record<TimesA>>, bs: seq<Record<TimesB>>, row: Row)
    ensures row in Collect(as_, bs) <==>
            row.a in as_ && row.b in bs && IsAcked(row.a.state) && IsAcked(row.b.state) && row.a.id == row.b.id
  {
    AckedAre(as_, row.a);
    AckedAre(bs, row.b);
    MergeIs(Acked(as_), Acked(bs), row);
  }

  // ----- Grouped join -----

  function Min(x: int, y: int): int { if x <= y then x else y }

  function Max(x: int, y: int): int { if x >= y then x else y }

  /** `agg_a`: earliest receipt, latest of the rest. */
  function JoinA(x: TimesA, y: TimesA): TimesA {
    TimesA(Min(x.received, y.received), Max(x.extracted, y.extracted), Max(x.signed, y.signed), Max(x.acked, y.acked))
  }

  /** `agg_b`: latest of every time. */
  function JoinB(x: TimesB, y: TimesB): TimesB {
    TimesB(Max(x.received, y.received), Max(x.verified, y.verified), Max(x.ingested, y.ingested))
  }

  /** `groupby('transaction_id').agg(…)`: one entry an id, its records combined. */
  function Grouped<T>(rs: seq<Record<T>>, join: (T, T) -> T): map<string, T> {
    if rs == [] then map[]
    else
      var before, r := Grouped(rs[..|rs| - 1], join), rs[|rs| - 1];
      before[r.id := if r.id in before then join(before[r.id], r.times) else r.times]
  }

  datatype Joined = Joined(a: TimesA, b: TimesB)

  /** The inner join of the grouped files. */
  function GroupedJoin(as_: seq<Record<TimesA>>, bs: seq<Record<TimesB>>): map<string, Joined> {
    var ga, gb := Grouped(as_, JoinA), Grouped(bs, JoinB);
    map id | id in ga && id in gb :: Joined(ga[id], gb[id])
  }

  ghost predicate Occurs<T>(rs: seq<Record<T>>, id: string) {
    exists i :: 0 <= i < |rs| && rs[i].id == id
  }

  /** `m` is the greatest value of `f` over the records of `id`. */
  ghost predicate IsMaximum<T(!new)>(rs: seq<Record<T>>, id: string, f: T -> int, m: int) {
    && (forall i :: 0 <= i < |rs| && rs[i].id == id ==> f(rs[i].times) <= m)
    && (exists i :: 0 <= i < |rs| && rs[i].id == id && f(rs[i].times) == m)
  }

  lemma {:induction false} GroupedIds<T>(rs: seq<Record<T>>, join: (T, T) -> T, id: string)
    ensures id in Grouped(rs, join) <==> Occurs(rs, id)
  {
    if rs != [] {
      var n := |rs| - 1;
      GroupedIds(rs[..n], join, id);
      if Occurs(rs[..n], id) {
        var i :| 0 <= i < n && rs[..n][i].id == id;
        assert rs[i].id == id;
      }
      if Occurs(rs, id) && rs[n].id != id {
        var i :| 0 <= i < |rs| && rs[i].id == id;
        assert rs[..n][i].id == id;
      }
    }
  }

  /** If `join` takes the greater value of `f`, a group's value of `f` is the greatest of its records. */
  lemma {:induction false} GroupedMaximum<T(!new)>(rs: seq<Record<T>>, join: (T, T) -> T, id: string, f: T -> int)
    requires id in Grouped(rs, join)
    requires forall x, y :: f(join(x, y)) == Max(f(x), f(y))
    ensures IsMaximum(rs, id, f, f(Grouped(rs, join)[id]))
  {
    var n := |rs| - 1;
    var before := Grouped(rs[..n], join);
    GroupedIds(rs[..n], join, id);
    if id in before {
      GroupedMaximum(rs[..n], join, id, f);
      var m := f(before[id]);
      var i :| 0 <= i < n && rs[..n][i].id == id && f(rs[..n][i].times) == m;
      assert rs[i].id == id && f(rs[i].times) == m;
      assert forall k :: 0 <= k < n ==> rs[..n][k] == rs[k];
    } else {
      assert rs[n].id == id;
      forall i | 0 <= i < n
        ensures rs[i].id != id
      {
        assert rs[..n][i] == rs[i];
      }
    }
  }

  /**
   * The grouped join has exactly one row for each id present in both files, however often retries repeated it;
   * the row holds the earliest receipt at A and the latest of every other time.
   */
  lemma GroupedJoinRows(as_: seq<Record<TimesA>>, bs: seq<Record<TimesB>>, id: string)
    ensures id in GroupedJoin(as_, bs) <==> Occurs(as_, id) && Occurs(bs, id)
    ensures id in GroupedJoin(as_, bs) ==>
              var j := GroupedJoin(as_, bs)[id];
              && IsMaximum(as_, id, (t: TimesA) => -t.received, -j.a.received)
              && IsMaximum(as_, id, (t: TimesA) => t.extracted, j.a.extracted)
              && IsMaximum(as_, id, (t: TimesA) => t.signed, j.a.signed)
              && IsMaximum(as_, id, (t: TimesA) => t.acked, j.a.acked)
              && IsMaximum(bs, id, (t: TimesB) => t.received, j.b.received)
              && IsMaximum(bs, id, (t: TimesB) => t.verified, j.b.verified)
              && IsMaximum(bs, id, (t: TimesB) => t.ingested, j.b.ingested)
  {
    GroupedIds(as_, JoinA, id);
    GroupedIds(bs, JoinB, id);
    if id in GroupedJoin(as_, bs) {
      GroupedMaximum(as_, JoinA, id, (t: TimesA) => -t.received);
      GroupedMaximum(as_, JoinA, id, (t: TimesA) => t.extracted);
      GroupedMaximum(as_, JoinA, id, (t: TimesA) => t.signed);
      GroupedMaximum(as_, JoinA, id, (t: TimesA) => t.acked);
      GroupedMaximum(bs, JoinB, id, (t: TimesB) => t.received);
      GroupedMaximum(bs, JoinB, id, (t: TimesB) => t.verified);
      GroupedMaximum(bs, JoinB, id, (t: TimesB) => t.ingested);
    }
  }

  predicate OrderedA(t: TimesA) {
    t.received <= t.extracted <= t.signed <= t.acked
  }

  predicate OrderedB(t: TimesB) {
    t.received <= t.verified <= t.ingested
  }

  function CryptoPath(j: Joined): int {
    (j.a.signed - j.a.extracted) + (j.b.verified - j.b.received)
  }

  function NetworkTransit(j: Joined): int {
    j.b.received - j.a.signed
  }

  function EndToEnd(j: Joined): int {
    j.b.ingested - j.a.received
  }

  /**
   * The exact decomposition, and what each part depends on: setting gateway B's clock forward by `d` leaves the
   * crypto path alone and adds `d` to transit and end-to-end.
   */
  lemma ExactDecomposition(j: Joined, d: int)
    ensures EndToEnd(j) ==
            CryptoPath(j) + NetworkTransit(j) + (j.a.extracted - j.a.received) + (j.b.ingested - j.b.verified)
    ensures var later := Joined(j.a, TimesB(j.b.received + d, j.b.verified + d, j.b.ingested + d));
            && CryptoPath(later) == CryptoPath(j)
            && NetworkTransit(later) == NetworkTransit(j) + d && EndToEnd(later) == EndToEnd(j) + d
    ensures j.b.received == j.a.signed ==> NetworkTransit(j) == 0
    ensures j.b.ingested == j.a.received ==> EndToEnd(j) == 0
  {
  }

  /**
   * Latency decomposition: if each record's own times do not decrease, the end-to-end latency of a grouped row
   * is at least its crypto path plus its network transit, for any number of duplicate records and with no
   * assumption relating the two gateways' clocks; and neither part of the crypto path is negative.
   */
  lemma LatencyDecomposition(as_: seq<Record<TimesA>>, bs: seq<Record<TimesB>>, id: string)
    requires forall i :: 0 <= i < |as_| && as_[i].id == id ==> OrderedA(as_[i].times)
    requires forall i :: 0 <= i < |bs| && bs[i].id == id ==> OrderedB(bs[i].times)
    requires id in GroupedJoin(as_, bs)
    ensures var j := GroupedJoin(as_, bs)[id];
            CryptoPath(j) + NetworkTransit(j) <= EndToEnd(j) && CryptoPath(j) >= 0
  {
    GroupedJoinRows(as_, bs, id);
    var j := GroupedJoin(as_, bs)[id];
    var i :| 0 <= i < |as_| && as_[i].id == id && ((t: TimesA) => t.extracted)(as_[i].times) == j.a.extracted;
    assert ((t: TimesA) => -t.received)(as_[i].times) <= -j.a.received;
    assert ((t: TimesA) => t.signed)(as_[i].times) <= j.a.signed;
    var k :| 0 <= k < |bs| && bs[k].id == id && ((t: TimesB) => t.verified)(bs[k].times) == j.b.verified;
    assert ((t: TimesB) => t.ingested)(bs[k].times) <= j.b.ingested;
    var m :| 0 <= m < |bs| && bs[m].id == id && ((t: TimesB) => t.received)(bs[m].times) == j.b.received;
    assert ((t: TimesB) => t.verified)(bs[m].times) <= j.b.verified;
  }

  // ----- The window -----

  const WINDOW := 1000

  /** Drop the first thousand rows if a full window remains, otherwise keep the last thousand. */
  function Window<T>(rows: seq<T>): seq<T> {
    if |rows| >= WINDOW + WINDOW then rows[WINDOW..WINDOW + WINDOW]
    else if |rows| > WINDOW then rows[|rows| - WINDOW..]
    else rows
  }

  /** `r` is `rows` without `front` rows at the start and `back` rows at the end. */
  ghost predicate Cut<T>(rows: seq<T>, front: nat, r: seq<T>, back: nat) {
    |rows| == front + |r| + back && forall i :: 0 <= i < |r| ==> r[i] == rows[front + i]
  }

  /**
   * The window holds exactly a thousand consecutive rows whenever more exist and every row otherwise; it never
   * drops more than a thousand warm-up rows, and drops rows at the end only after a full warm-up.
   */
  lemma WindowSize<T>(rows: seq<T>) returns (front: nat, back: nat)
    ensures |Window(rows)| == Min(|rows|, 1000)
    ensures Cut(rows, front, Window(rows), back)
    ensures front <= 1000 && (back > 0 ==> front == 1000)
  {
    front := Min(WINDOW, |rows| - |Window(rows)|);
    back := |rows| - |Window(rows)| - front;
  }

  // ----- The rows that are analysed -----

  datatype KeyedRow = KeyedRow(id: string, times: Joined)

  /** `rows` holds each row of the grouped join once, by receipt at gateway A. */
  ghost predicate SortedRows(rows: seq<KeyedRow>, join: map<string, Joined>) {
    && |rows| == |join|
    && (forall i :: 0 <= i < |rows| ==> rows[i].id in join && join[rows[i].id] == rows[i].times)
    && (forall i, j :: 0 <= i < j < |rows| ==> rows[i].id != rows[j].id)
    && (forall i, j :: 0 <= i < j < |rows| ==> rows[i].times.a.received <= rows[j].times.a.received)
  }

  lemma RemovingOne(join: map<string, Joined>, id: string)
    requires id in join
    ensures |join - {id}| == |join| - 1
    ensures forall other :: other in join && other != id ==> other in join - {id} && (join - {id})[other] == join[other]
  {
    assert (join - {id}).Keys == join.Keys - {id};
    assert |join.Keys| == |join| && |(join - {id}).Keys| == |join - {id}|;
  }

  /** Of the rows of a join, one with the latest receipt. */
  lemma LatestRow(join: map<string, Joined>) returns (id: string)
    requires |join| > 0
    ensures id in join && forall other :: other in join ==> join[other].a.received <= join[id].a.received
    decreases |join|
  {
    id :| id in join;
    var rest := join - {id};
    RemovingOne(join, id);
    if |rest| > 0 {
      var later := LatestRow(rest);
      if join[later].a.received > join[id].a.received {
        id := later;
      }
    } else {
      assert forall other :: other in join && other != id ==> other in rest;
    }
  }

  /** The rows of a join can be sorted. */
  lemma {:induction false} RowsCanBeSorted(join: map<string, Joined>) returns (rows: seq<KeyedRow>)
    ensures SortedRows(rows, join)
    decreases |join|
  {
    if |join| == 0 {
      rows := [];
    } else {
      var id := LatestRow(join);
      RemovingOne(join, id);
      var earlier := RowsCanBeSorted(join - {id});
      rows := earlier + [KeyedRow(id, join[id])];
    }
  }

  /**
   * What is analysed: of the sorted rows of the grouped join the window takes exactly a thousand whenever more
   * exist and all otherwise, each of a different transaction that is in both files; and each whose crypto path and
   * network transit are positive has a positive end-to-end latency of at least their sum.
   */
  lemma AnalysedRows(as_: seq<Record<TimesA>>, bs: seq<Record<TimesB>>, rows: seq<KeyedRow>, i: nat, j: nat)
    requires SortedRows(rows, GroupedJoin(as_, bs))
    requires forall k :: 0 <= k < |as_| ==> OrderedA(as_[k].times)
    requires forall k :: 0 <= k < |bs| ==> OrderedB(bs[k].times)
    ensures |Window(rows)| == Min(|GroupedJoin(as_, bs)|, 1000)
    ensures i < j < |Window(rows)| ==> Window(rows)[i].id != Window(rows)[j].id
    ensures i < |Window(rows)| ==>
              var row := Window(rows)[i];
              && Occurs(as_, row.id) && Occurs(bs, row.id)
              && CryptoPath(row.times) + NetworkTransit(row.times) <= EndToEnd(row.times)
              && (CryptoPath(row.times) > 0 && NetworkTransit(row.times) > 0 ==> EndToEnd(row.times) > 0)
  {
    var front, back := WindowSize(rows);
    if i < |Window(rows)| {
      var row := Window(rows)[i];
      assert row == rows[front + i];
      GroupedJoinRows(as_, bs, row.id);
      LatencyDecomposition(as_, bs, row.id);
    }
  }
}
