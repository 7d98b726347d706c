/** Polling task rows for status changes and for the new iterations of hybrid runs. */
module ProgressStream {
  import opened Options
  import opened Text
  import opened Sorting

  /** One entry of a stored trace; entries may lack fields or be no objects at all. */
  datatype Item = Malformed | Item(iteration: Option<int>, objective: Option<real>, best: Option<real>,
                                   gap: Option<real>)

  /** A stored result: anything without a `hybrid` object is opaque here. */
  datatype Result =
    | Opaque
    | Hybrid(iterations: Option<seq<Item>>, current: Option<int>, latestObjective: Option<real>, best: Option<real>,
             gap: Option<real>)

  datatype TaskRow = TaskRow(id: nat, status: string, updatedAt: string, attempts: nat, durationMs: Option<int>,
                             result: Result)

  datatype StatusPayload = StatusPayload(taskId: nat, status: string, updatedAt: string, durationMs: Option<int>,
                                         attempts: nat)

  datatype HybridPayload = HybridPayload(taskId: nat, iteration: int, objective: real, best: real, gap: real,
                                         updatedAt: string)

  // ----- the version string

  function IntText(i: int): string {
    if i < 0 then "-" + NatText(-i) else NatText(i)
  }

  function ParseInt(s: string): Option<int> {
    if s != [] && s[0] == '-' then
      if |s| > 1 && All(s[1..], IsDigit) then Option.Some(-(ParseNat(s[1..]) as int)) else Option.None
    else if s != [] && All(s, IsDigit) then Option.Some(ParseNat(s))
    else Option.None
  }

  lemma ParseIntText(i: int)
    ensures ParseInt(IntText(i)) == Option.Some(i)
    ensures '|' !in IntText(i) && IntText(i) != []
  {
    ParseNatText(if i < 0 then -i else i);
    var s := IntText(i);
    if i < 0 {
      assert s[1..] == NatText(-i);
    } else {
      assert s[0] in s;
    }
  }

  function MaxIteration(items: seq<Item>): Option<int> {
    if items == [] then Option.None
    else
      var best, last := MaxIteration(items[..|items| - 1]), items[|items| - 1];
      if last.Malformed? || last.iteration.None? then best
      else if best.None? || last.iteration.value > best.value then last.iteration
      else best
  }

  function HybridIteration(r: Result): Option<int> {
    match r
    case Opaque => Option.None
    case Hybrid(iterations, current, _, _, _) =>
      if iterations.Some? && MaxIteration(iterations.value).Some? then MaxIteration(iterations.value) else current
  }

  function IterationOrNone(row: TaskRow): int {
    if HybridIteration(row.result).Some? then HybridIteration(row.result).value else -1
  }

  function DurationText(d: Option<int>): string { if d.None? then "None" else IntText(d.value) }

  function ToVersion(row: TaskRow): string {
    Join([row.status, row.updatedAt, IntText(row.attempts), DurationText(row.durationMs),
          IntText(IterationOrNone(row))], "|")
  }

  /** The last part of a version, read as a number. */
  function ParsePreviousIteration(version: Option<string>): int {
    if version.None? || version.value == [] then -1
    else
      var parts := Split(version.value, '|');
      match ParseInt(parts[|parts| - 1])
      case Some(i) => i
      case None => -1
  }

  /** The iteration survives joining the version and splitting it, whatever the other fields contain. */
  lemma VersionRoundTrip(row: TaskRow)
    ensures ParsePreviousIteration(Option.Some(ToVersion(row))) == IterationOrNone(row)
  {
    hide Split, IntText, ParseInt, IterationOrNone;
    var i := IterationOrNone(row);
    ParseIntText(i);
    var a := row.status + "|" + (row.updatedAt + "|" + (IntText(row.attempts) + "|" + DurationText(row.durationMs)));
    VersionShape(row.status, row.updatedAt, IntText(row.attempts), DurationText(row.durationMs), IntText(i));
    SplitLast(a, IntText(i), '|');
    assert a + ['|'] + IntText(i) == a + "|" + IntText(i);
  }

  lemma VersionShape(a: string, b: string, c: string, d: string, e: string)
    ensures Join([a, b, c, d, e], "|") == (a + "|" + (b + "|" + (c + "|" + d))) + "|" + e
  {
    assert [a, b, c, d, e][1..] == [b, c, d, e] && [b, c, d, e][1..] == [c, d, e] && [c, d, e][1..] == [d, e]
        && [d, e][1..] == [e];
    assert Join([d, e], "|") == d + "|" + e;
    assert Join([c, d, e], "|") == c + "|" + Join([d, e], "|");
    assert Join([b, c, d, e], "|") == b + "|" + Join([c, d, e], "|");
  }

  // ----- what a version tells

  lemma {:induction false} MaxExactly(items: seq<Item>)
    ensures MaxIteration(items).None? <==> forall item :: item in items && item.Item? ==> item.iteration.None?
    ensures MaxIteration(items).Some? ==>
      exists item :: item in items && item.Item? && item.iteration == MaxIteration(items)
    ensures MaxIteration(items).Some? ==> forall item :: item in items && item.Item? && item.iteration.Some? ==>
      item.iteration.value <= MaxIteration(items).value
  {
    if items != [] {
      MaxExactly(items[..|items| - 1]);
      assert items == items[..|items| - 1] + [items[|items| - 1]];
    }
  }

  /** The iteration in a version: the largest one of the trace, or the current one of a trace without any. */
  lemma LatestIteration(row: TaskRow)
    ensures row.result.Opaque? ==> IterationOrNone(row) == -1
    ensures row.result.Hybrid? ==>
      var numbered := set item | item in Trace(row.result) && item.Item? && item.iteration.Some? ::
        item.iteration.value;
      if numbered == {} then IterationOrNone(row) == if row.result.current.Some? then row.result.current.value else -1
      else IterationOrNone(row) in numbered && forall i :: i in numbered ==> i <= IterationOrNone(row)
  {
    hide MaxIteration;
    if row.result.Hybrid? {
      var items := Trace(row.result);
      MaxExactly(items);
      var numbered := set item | item in items && item.Item? && item.iteration.Some? :: item.iteration.value;
      forall item | item in items && item.Item? && item.iteration.Some? ensures item.iteration.value in numbered {}
      assert row.result.iterations.None? ==> MaxIteration(items) == Option.None;
    }
  }

  function Trace(r: Result): seq<Item>
    requires r.Hybrid?
  {
    if r.iterations.Some? then r.iterations.value else []
  }

  lemma SameInt(a: int, b: int)
    requires IntText(a) == IntText(b)
    ensures a == b
  {
    ParseIntText(a);
    ParseIntText(b);
  }

  lemma SameDuration(a: Option<int>, b: Option<int>)
    requires DurationText(a) == DurationText(b)
    ensures a == b
  {
    assert ParseInt("None") == Option.None by { assert "None"[0] == 'N' && 'N' in "None"; }
    if a.Some? { ParseIntText(a.value); }
    if b.Some? { ParseIntText(b.value); }
  }

  lemma DurationHasNoBar(d: Option<int>)
    ensures '|' !in DurationText(d)
  {
    hide IntText;
    if d.Some? { ParseIntText(d.value); }
  }

  lemma SplitVersion(a: string, b: string, c: string, d: string, e: string)
    requires '|' !in a && '|' !in b && '|' !in c && '|' !in d && '|' !in e
    ensures Split(Join([a, b, c, d, e], "|"), '|') == [a, b, c, d, e]
  {
    hide Split;
    VersionShape(a, b, c, d, e);
    var r3 := d + ['|'] + e;
    var r2 := c + ['|'] + r3;
    var r1 := b + ['|'] + r2;
    assert (a + "|" + (b + "|" + (c + "|" + d))) + "|" + e == a + ['|'] + r1;
    SplitFirst(a, r1, '|');
    SplitFirst(b, r2, '|');
    SplitFirst(c, r3, '|');
    SplitFirst(d, e, '|');
    SplitFirst(e, "", '|');
  }

  /** Two rows have one version exactly when these five things agree; neither states nor times contain a bar. */
  lemma SameVersionExactly(a: TaskRow, b: TaskRow)
    requires '|' !in a.status && '|' !in a.updatedAt && '|' !in b.status && '|' !in b.updatedAt
    ensures ToVersion(a) == ToVersion(b) <==>
      a.status == b.status && a.updatedAt == b.updatedAt && a.attempts == b.attempts && a.durationMs == b.durationMs
      && IterationOrNone(a) == IterationOrNone(b)
  {
    hide Split, Join, IntText, DurationText, IterationOrNone;
    VersionParts(a);
    VersionParts(b);
    if ToVersion(a) == ToVersion(b) {
      var x, y := Split(ToVersion(a), '|'), Split(ToVersion(b), '|');
      assert x[0] == y[0] && x[1] == y[1] && x[2] == y[2] && x[3] == y[3] && x[4] == y[4];
      SameInt(a.attempts, b.attempts);
      SameDuration(a.durationMs, b.durationMs);
      SameInt(IterationOrNone(a), IterationOrNone(b));
    }
  }

  lemma VersionParts(row: TaskRow)
    requires '|' !in row.status && '|' !in row.updatedAt
    ensures Split(ToVersion(row), '|') ==
            [row.status, row.updatedAt, IntText(row.attempts), DurationText(row.durationMs),
             IntText(IterationOrNone(row))]
  {
    hide Split, Join, IntText, DurationText, IterationOrNone;
    ParseIntText(row.attempts);
    ParseIntText(IterationOrNone(row));
    DurationHasNoBar(row.durationMs);
    SplitVersion(row.status, row.updatedAt, IntText(row.attempts), DurationText(row.durationMs),
                 IntText(IterationOrNone(row)));
  }

  // ----- new iterations of one row

  function Gap(gap: Option<real>, objective: real, best: real): real {
    if gap.Some? then gap.value else if objective - best > 0.0 then objective - best else 0.0
  }

  /** A new, complete entry. */
  function ItemPayload(row: TaskRow, item: Item, previous: int): Option<HybridPayload> {
    if item.Malformed? || item.iteration.None? || item.iteration.value <= previous then Option.None
    else if item.objective.None? || item.best.None? then Option.None
    else
      var o, b := item.objective.value, item.best.value;
      Option.Some(HybridPayload(row.id, item.iteration.value, o, b, Gap(item.gap, o, b), row.updatedAt))
  }

  function Collect(row: TaskRow, items: seq<Item>, previous: int): seq<HybridPayload> {
    if items == [] then []
    else
      var p := ItemPayload(row, items[|items| - 1], previous);
      Collect(row, items[..|items| - 1], previous) + if p.Some? then [p.value] else []
  }

  function ByIteration(): (HybridPayload, HybridPayload) -> bool {
    (a: HybridPayload, b: HybridPayload) => a.iteration <= b.iteration
  }

  /** Without new entries, the summary fields may announce the current iteration alone. */
  function CurrentPayload(row: TaskRow, previous: int): seq<HybridPayload>
    requires row.result.Hybrid?
  {
    var r := row.result;
    if r.current.None? || r.current.value <= previous || r.latestObjective.None? || r.best.None? then []
    else
      var o, b := r.latestObjective.value, r.best.value;
      [HybridPayload(row.id, r.current.value, o, b, Gap(r.gap, o, b), row.updatedAt)]
  }

  function HybridPayloads(row: TaskRow, previousVersion: Option<string>): seq<HybridPayload> {
    if row.result.Opaque? then []
    else
      var previous := ParsePreviousIteration(previousVersion);
      var items := if row.result.iterations.Some? then row.result.iterations.value else [];
      var payloads := StableSort(Collect(row, items, previous), ByIteration());
      if payloads != [] then payloads else CurrentPayload(row, previous)
  }

  /** Entries with an iteration behind `previous`, an objective and a best objective. */
  function Complete(items: seq<Item>, previous: int): (r: seq<Item>)
    ensures forall item :: item in r <==>
      item in items && item.Item? && item.iteration.Some? && item.iteration.value > previous && item.objective.Some?
      && item.best.Some?
  {
    if items == [] then []
    else
      var item, front := items[|items| - 1], Complete(items[..|items| - 1], previous);
      assert items == items[..|items| - 1] + [item];
      if item.Item? && item.iteration.Some? && item.iteration.value > previous && item.objective.Some?
         && item.best.Some? then front + [item] else front
  }

  /** The payload of a complete entry. */
  function Announced(row: TaskRow, item: Item): HybridPayload
    requires item.Item? && item.iteration.Some? && item.objective.Some? && item.best.Some?
  {
    var objective, best := item.objective.value, item.best.value;
    HybridPayload(row.id, item.iteration.value, objective, best,
                  if item.gap.Some? then item.gap.value else if objective > best then objective - best else 0.0,
                  row.updatedAt)
  }

  lemma {:induction false} CollectExactly(row: TaskRow, items: seq<Item>, previous: int)
    ensures var ps, complete := Collect(row, items, previous), Complete(items, previous);
      |ps| == |complete| && forall k :: 0 <= k < |ps| ==>
        complete[k] in complete && ps[k] == Announced(row, complete[k])
  {
    hide Announced, ItemPayload;
    if items != [] {
      CollectExactly(row, items[..|items| - 1], previous);
      ItemExactly(row, items[|items| - 1], previous);
    }
  }

  lemma ItemExactly(row: TaskRow, item: Item, previous: int)
    ensures ItemPayload(row, item, previous) ==
      if item.Item? && item.iteration.Some? && item.iteration.value > previous && item.objective.Some?
         && item.best.Some?
      then Option.Some(Announced(row, item)) else Option.None
  {}

  lemma ByIterationOrders()
    ensures TotalPreorder(ByIteration())
  {}

  /**
   * What a row announces behind `previous`: its complete new entries, by iteration; without any, the current
   * iteration, if it is new and has an objective and a best objective.
   */
  lemma PayloadsExactly(row: TaskRow, version: Option<string>)
    ensures row.result.Opaque? ==> HybridPayloads(row, version) == []
    ensures row.result.Hybrid? ==>
      var previous, ps, r := ParsePreviousIteration(version), HybridPayloads(row, version), row.result;
      var complete := Complete(Trace(r), previous);
      var current := Item(r.current, r.latestObjective, r.best, r.gap);
      if complete != [] then
        && |ps| == |complete| && (forall a, b :: 0 <= a < b < |ps| ==> ps[a].iteration <= ps[b].iteration)
        && (forall item :: item in complete ==> Announced(row, item) in ps)
        && (forall p :: p in ps ==> exists item :: item in complete && p == Announced(row, item))
      else if r.current.Some? && r.current.value > previous && r.latestObjective.Some? && r.best.Some?
      then ps == [Announced(row, current)] else ps == []
  {
    hide ParsePreviousIteration, Collect, Complete, Announced;
    if row.result.Hybrid? {
      var previous, items := ParsePreviousIteration(version), Trace(row.result);
      var complete, ps := Complete(items, previous), Collect(row, items, previous);
      CollectExactly(row, items, previous);
      SortedPayloads(ps);
      CurrentExactly(row, previous);
      forall item | item in complete ensures Announced(row, item) in ps {
        var k :| 0 <= k < |complete| && complete[k] == item;
        assert ps[k] == Announced(row, item);
      }
    }
  }

  lemma SortedPayloads(ps: seq<HybridPayload>)
    ensures var r := StableSort(ps, ByIteration());
      |r| == |ps| && (forall a, b :: 0 <= a < b < |r| ==> r[a].iteration <= r[b].iteration)
      && forall p :: p in r <==> p in ps
  {
    ByIterationOrders();
    SortSorts(ps, ByIteration());
    forall p ensures p in StableSort(ps, ByIteration()) <==> p in ps {
      InMultiset(StableSort(ps, ByIteration()), ps, p);
    }
  }

  lemma CurrentExactly(row: TaskRow, previous: int)
    requires row.result.Hybrid?
    ensures var r := row.result;
      var current := Item(r.current, r.latestObjective, r.best, r.gap);
      CurrentPayload(row, previous) ==
      if r.current.Some? && r.current.value > previous && r.latestObjective.Some? && r.best.Some?
      then [Announced(row, current)] else []
  {}

  method ToHybridIterationPayloads(row: TaskRow, previousVersion: Option<string>) returns (payloads: seq<HybridPayload>)
    ensures payloads == HybridPayloads(row, previousVersion)
  {
    if row.result.Opaque? {
      return [];
    }
    var previous := ParsePreviousIteration(previousVersion);
    payloads := [];
    if row.result.iterations.Some? {
      var items := row.result.iterations.value;
      assert items[..0] == [];
      for k := 0 to |items|
        invariant payloads == Collect(row, items[..k], previous)
      {
        assert items[..k + 1][..k] == items[..k];
        var p := ItemPayload(row, items[k], previous);
        if p.Some? {
          payloads := payloads + [p.value];
        }
      }
      assert items[..|items|] == items;
      payloads := StableSort(payloads, ByIteration());
      if payloads != [] {
        return;
      }
    }
    payloads := CurrentPayload(row, previous);
  }

  // ----- one poll

  function RowIds(rows: seq<TaskRow>): set<nat> { set row | row in rows :: row.id }

  predicate DistinctIds(rows: seq<TaskRow>) {
    forall i, j :: 0 <= i < j < |rows| ==> rows[i].id != rows[j].id
  }

  function Known(versions: map<nat, string>, id: nat): Option<string> {
    if id in versions then Option.Some(versions[id]) else Option.None
  }

  predicate Changed(row: TaskRow, versions: map<nat, string>) {
    Known(versions, row.id) != Option.Some(ToVersion(row))
  }

  function StatusOf(row: TaskRow): StatusPayload {
    StatusPayload(row.id, row.status, row.updatedAt, row.durationMs, row.attempts)
  }

  function Statuses(rows: seq<TaskRow>, versions: map<nat, string>): seq<StatusPayload> {
    if rows == [] then []
    else
      var last := rows[|rows| - 1];
      Statuses(rows[..|rows| - 1], versions) + if Changed(last, versions) then [StatusOf(last)] else []
  }

  function Iterations(rows: seq<TaskRow>, versions: map<nat, string>): seq<HybridPayload> {
    if rows == [] then []
    else
      var last := rows[|rows| - 1];
      Iterations(rows[..|rows| - 1], versions)
          + if Changed(last, versions) then HybridPayloads(last, Known(versions, last.id)) else []
  }

  function NextVersions(rows: seq<TaskRow>, versions: map<nat, string>): map<nat, string> {
    if rows == [] then versions
    else NextVersions(rows[..|rows| - 1], versions)[rows[|rows| - 1].id := ToVersion(rows[|rows| - 1])]
  }

  /** The positions of the rows whose version differs from the remembered one. */
  function Moved(rows: seq<TaskRow>, versions: map<nat, string>): (r: seq<nat>)
    ensures forall i :: i in r <==> 0 <= i < |rows| && Changed(rows[i], versions)
    ensures forall a, b :: 0 <= a < b < |r| ==> r[a] < r[b]
  {
    if rows == [] then []
    else
      var n := |rows| - 1;
      var front := Moved(rows[..n], versions);
      assert forall a :: 0 <= a < |front| ==> front[a] in front;
      if Changed(rows[n], versions) then front + [n] else front
  }

  lemma {:induction false} StatusesMoved(rows: seq<TaskRow>, versions: map<nat, string>)
    ensures var r, changed := Moved(rows, versions), Statuses(rows, versions);
      |changed| == |r| && forall a :: 0 <= a < |r| ==> r[a] in r && changed[a] == StatusOf(rows[r[a]])
  {
    hide ToVersion, Changed, StatusOf;
    if rows != [] {
      StatusesMoved(rows[..|rows| - 1], versions);
    }
  }

  lemma {:induction false} AllMoved(rows: seq<TaskRow>)
    ensures |Moved(rows, map[])| == |rows|
  {
    hide ToVersion;
    if rows != [] {
      AllMoved(rows[..|rows| - 1]);
    }
  }

  lemma {:induction false} NextOfRow(rows: seq<TaskRow>, versions: map<nat, string>, i: nat)
    requires DistinctIds(rows) && i < |rows|
    ensures rows[i].id in NextVersions(rows, versions) && NextVersions(rows, versions)[rows[i].id] == ToVersion(rows[i])
  {
    hide ToVersion;
    if i < |rows| - 1 {
      NextOfRow(rows[..|rows| - 1], versions, i);
    }
  }

  lemma {:induction false} NextOfOther(rows: seq<TaskRow>, versions: map<nat, string>, id: nat)
    requires forall i :: 0 <= i < |rows| ==> rows[i].id != id
    ensures Known(NextVersions(rows, versions), id) == Known(versions, id)
  {
    hide ToVersion;
    if rows != [] {
      NextOfOther(rows[..|rows| - 1], versions, id);
    }
  }

  lemma PolledExactly(rows: seq<TaskRow>, versions: map<nat, string>) returns (sent: seq<nat>)
    ensures forall a, b :: 0 <= a < b < |sent| ==> sent[a] < sent[b]
    ensures forall i :: i in sent <==>
      0 <= i < |rows| && !(rows[i].id in versions && versions[rows[i].id] == ToVersion(rows[i]))
    ensures |Statuses(rows, versions)| == |sent| && forall a :: 0 <= a < |sent| ==>
      sent[a] < |rows| && var row := rows[sent[a]];
      Statuses(rows, versions)[a] == StatusPayload(row.id, row.status, row.updatedAt, row.durationMs, row.attempts)
    ensures versions == map[] ==> |Statuses(rows, versions)| == |rows|
  {
    hide ToVersion, Moved;
    sent := Moved(rows, versions);
    StatusesMoved(rows, versions);
    AllMoved(rows);
  }

  lemma RememberedExactly(rows: seq<TaskRow>, versions: map<nat, string>)
    ensures var next := NextVersions(rows, versions);
      && (DistinctIds(rows) ==>
            forall i :: 0 <= i < |rows| ==> rows[i].id in next && next[rows[i].id] == ToVersion(rows[i]))
      && (forall id :: id !in RowIds(rows) ==>
            (id in next <==> id in versions) && (id in versions ==> next[id] == versions[id]))
  {
    hide ToVersion, NextVersions;
    forall i | DistinctIds(rows) && 0 <= i < |rows|
      ensures rows[i].id in NextVersions(rows, versions)
      ensures NextVersions(rows, versions)[rows[i].id] == ToVersion(rows[i])
    {
      NextOfRow(rows, versions, i);
    }
    forall id | id !in RowIds(rows) ensures Known(NextVersions(rows, versions), id) == Known(versions, id) {
      forall i | 0 <= i < |rows| ensures rows[i].id != id { assert rows[i] in rows && rows[i].id in RowIds(rows); }
      NextOfOther(rows, versions, id);
    }
  }

  /**
   * `sent` lists the positions of the rows whose version is not the remembered one, in row order; `changed` holds one
   * payload for each of them.
   */
  method ListChangedTasks(rows: seq<TaskRow>, versions: map<nat, string>)
    returns (changed: seq<StatusPayload>, iterations: seq<HybridPayload>, next: map<nat, string>, ghost sent: seq<nat>)
    ensures changed == Statuses(rows, versions) && iterations == Iterations(rows, versions)
      && next == NextVersions(rows, versions)
    ensures forall a, b :: 0 <= a < b < |sent| ==> sent[a] < sent[b]
    ensures forall i :: i in sent <==>
      0 <= i < |rows| && !(rows[i].id in versions && versions[rows[i].id] == ToVersion(rows[i]))
    ensures |changed| == |sent| && forall a :: 0 <= a < |sent| ==>
      sent[a] < |rows| && var row := rows[sent[a]];
      changed[a] == StatusPayload(row.id, row.status, row.updatedAt, row.durationMs, row.attempts)
    ensures versions == map[] ==> |changed| == |rows|
    ensures (forall i, j :: 0 <= i < j < |rows| ==> rows[i].id != rows[j].id) ==>
      forall i :: 0 <= i < |rows| ==> rows[i].id in next && next[rows[i].id] == ToVersion(rows[i])
    ensures forall id :: id !in RowIds(rows) ==>
      (id in next <==> id in versions) && (id in versions ==> next[id] == versions[id])
  {
    hide HybridPayloads, ToVersion, Moved, StatusOf, RowIds;
    changed, iterations, next := [], [], versions;
    assert rows[..0] == [];
    for k := 0 to |rows|
      invariant changed == Statuses(rows[..k], versions)
      invariant iterations == Iterations(rows[..k], versions)
      invariant next == NextVersions(rows[..k], versions)
    {
      assert rows[..k + 1][..k] == rows[..k];
      var row := rows[k];
      var version := ToVersion(row);
      if Known(versions, row.id) != Option.Some(version) {
        changed := changed + [StatusOf(row)];
        var payloads := ToHybridIterationPayloads(row, Known(versions, row.id));
        iterations := iterations + payloads;
      }
      next := next[row.id := version];
    }
    assert rows[..|rows|] == rows;
    sent := PolledExactly(rows, versions);
    RememberedExactly(rows, versions);
  }

  // ----- a growing trace, polled again and again

  /** What an iteration measured. */
  datatype Point = Point(objective: real, best: real, gap: real)

  function Entry(trace: nat -> Point, i: nat): Item
    requires i >= 1
  {
    Item(Option.Some(i), Option.Some(trace(i).objective), Option.Some(trace(i).best), Option.Some(trace(i).gap))
  }

  /** The first `k` iterations, numbered from 1. */
  function Entries(trace: nat -> Point, k: nat): (r: seq<Item>)
    ensures |r| == k && forall i :: 0 <= i < k ==> r[i] == Entry(trace, i + 1)
  {
    if k == 0 then [] else Entries(trace, k - 1) + [Entry(trace, k)]
  }

  /**
   * A row that stores `k` iterations: no hybrid result yet, a running state, or a summary without `current`.
   */
  predicate Shows(row: TaskRow, trace: nat -> Point, k: nat) {
    if row.result.Opaque? then k == 0
    else
      && row.result.iterations == Option.Some(Entries(trace, k))
      && (row.result.current.None? || row.result.current == Option.Some(k))
      && (k == 0 ==> row.result.current.None?)
  }

  predicate Announces(p: HybridPayload, id: nat, trace: nat -> Point, i: nat) {
    p.taskId == id && p.iteration == i && Point(p.objective, p.best, p.gap) == trace(i)
  }

  /** Exactly the iterations `from + 1` to `to`, in order, with their measurements. */
  predicate AnnouncesRange(ps: seq<HybridPayload>, id: nat, trace: nat -> Point, from: nat, to: nat) {
    from <= to && |ps| == to - from && forall j :: 0 <= j < |ps| ==> Announces(ps[j], id, trace, from + 1 + j)
  }

  lemma {:induction false} EntriesMax(trace: nat -> Point, k: nat)
    ensures MaxIteration(Entries(trace, k)) == if k == 0 then Option.None else Option.Some(k)
  {
    if k != 0 {
      EntriesMax(trace, k - 1);
      assert Entries(trace, k)[..k - 1] == Entries(trace, k - 1);
    }
  }

  lemma ShownIteration(row: TaskRow, trace: nat -> Point, k: nat)
    requires Shows(row, trace, k)
    ensures IterationOrNone(row) == if k == 0 then -1 else k
  {
    EntriesMax(trace, k);
  }

  lemma {:induction false} CollectRange(row: TaskRow, trace: nat -> Point, k: nat, previous: int)
    requires -1 <= previous <= k
    ensures var from := if previous < 0 then 0 else previous;
      AnnouncesRange(Collect(row, Entries(trace, k), previous), row.id, trace, from, k)
  {
    hide AnnouncesRange, ItemPayload, Collect;
    var from: nat := if previous < 0 then 0 else previous;
    if previous == k || k == 0 {
      CollectNone(row, trace, k, previous);
      NothingAnnounced(row.id, trace, k);
    } else {
      CollectRange(row, trace, k - 1, previous);
      CollectLast(row, trace, k, previous);
      OneAnnounced(row, trace, k, previous);
      RangeConcat(Collect(row, Entries(trace, k - 1), previous), [ItemPayload(row, Entry(trace, k), previous).value],
                  row.id, trace, from, k - 1, k);
    }
  }

  lemma CollectNone(row: TaskRow, trace: nat -> Point, k: nat, previous: int)
    requires previous == k || k == 0
    ensures Collect(row, Entries(trace, k), previous) == []
  {
    if k != 0 {
      CollectNothing(row, trace, k, previous);
    }
  }

  lemma CollectLast(row: TaskRow, trace: nat -> Point, k: nat, previous: int)
    requires k > 0
    ensures var p := ItemPayload(row, Entry(trace, k), previous);
      Collect(row, Entries(trace, k), previous) ==
          Collect(row, Entries(trace, k - 1), previous) + if p.Some? then [p.value] else []
  {
    hide ItemPayload;
    assert Entries(trace, k)[..k - 1] == Entries(trace, k - 1);
  }

  lemma OneAnnounced(row: TaskRow, trace: nat -> Point, k: nat, previous: int)
    requires previous < k && k > 0
    ensures var p := ItemPayload(row, Entry(trace, k), previous);
      p.Some? && AnnouncesRange([p.value], row.id, trace, k - 1, k)
  {}

  lemma {:induction false} CollectNothing(row: TaskRow, trace: nat -> Point, k: nat, previous: int)
    requires previous >= k
    ensures Collect(row, Entries(trace, k), previous) == []
  {
    if k != 0 {
      assert Entries(trace, k)[..k - 1] == Entries(trace, k - 1);
      CollectNothing(row, trace, k - 1, previous);
    }
  }

  /** A row with `k` iterations, after a version with `seen` of them. */
  lemma NewIterations(row: TaskRow, trace: nat -> Point, seen: nat, k: nat, version: Option<string>)
    requires Shows(row, trace, k) && seen <= k
    requires ParsePreviousIteration(version) == if seen == 0 then -1 else seen
    ensures AnnouncesRange(HybridPayloads(row, version), row.id, trace, seen, k)
  {
    hide ParsePreviousIteration, Collect, CurrentPayload, AnnouncesRange, Entries;
    if row.result.Hybrid? {
      var previous := ParsePreviousIteration(version);
      CollectRange(row, trace, k, previous);
      var ps := Collect(row, Entries(trace, k), previous);
      RangeSorted(ps, row.id, trace, seen, k);
      if ps == [] { CurrentKnown(row, trace, k, previous); }
    } else {
      NothingAnnounced(row.id, trace, 0);
    }
  }

  lemma RangeSorted(ps: seq<HybridPayload>, id: nat, trace: nat -> Point, from: nat, to: nat)
    requires AnnouncesRange(ps, id, trace, from, to)
    ensures StableSort(ps, ByIteration()) == ps && (ps == [] ==> from == to)
  {
    SortFixed(ps, ByIteration());
  }

  lemma CurrentKnown(row: TaskRow, trace: nat -> Point, k: nat, previous: int)
    requires row.result.Hybrid? && Shows(row, trace, k) && previous == if k == 0 then -1 else k
    ensures CurrentPayload(row, previous) == []
  {}

  /** The payloads of one task. */
  function Of(ps: seq<HybridPayload>, id: nat): seq<HybridPayload> {
    if ps == [] then []
    else Of(ps[..|ps| - 1], id) + if ps[|ps| - 1].taskId == id then [ps[|ps| - 1]] else []
  }

  lemma {:induction false} OfConcat(a: seq<HybridPayload>, b: seq<HybridPayload>, id: nat)
    ensures Of(a + b, id) == Of(a, id) + Of(b, id)
    decreases |b|
  {
    if b == [] {
      assert a + b == a;
    } else {
      assert (a + b)[..|a + b| - 1] == a + b[..|b| - 1];
      OfConcat(a, b[..|b| - 1], id);
    }
  }

  lemma {:induction false} OfOne(ps: seq<HybridPayload>, owner: nat, id: nat)
    requires forall p :: p in ps ==> p.taskId == owner
    ensures Of(ps, id) == if owner == id then ps else []
  {
    if ps != [] {
      assert ps == ps[..|ps| - 1] + [ps[|ps| - 1]];
      OfOne(ps[..|ps| - 1], owner, id);
    }
  }

  lemma {:induction false} CollectOwner(row: TaskRow, items: seq<Item>, previous: int)
    ensures forall p :: p in Collect(row, items, previous) ==> p.taskId == row.id
  {
    if items != [] {
      CollectOwner(row, items[..|items| - 1], previous);
    }
  }

  lemma PayloadOwner(row: TaskRow, version: Option<string>)
    ensures forall p :: p in HybridPayloads(row, version) ==> p.taskId == row.id
  {
    hide ParsePreviousIteration;
    if row.result.Hybrid? && row.result.iterations.Some? {
      var ps := Collect(row, row.result.iterations.value, ParsePreviousIteration(version));
      CollectOwner(row, row.result.iterations.value, ParsePreviousIteration(version));
      forall p ensures p in StableSort(ps, ByIteration()) <==> p in ps {
        InMultiset(StableSort(ps, ByIteration()), ps, p);
      }
    }
  }

  /** Iterations are sent for changed rows only, and in row order. */
  lemma {:induction false} IterationsInOrder(rows: seq<TaskRow>, versions: map<nat, string>, a: nat, b: nat)
    returns (i: nat, j: nat)
    requires a <= b < |Iterations(rows, versions)|
    ensures i <= j < |rows|
    ensures Iterations(rows, versions)[a].taskId == rows[i].id && Iterations(rows, versions)[b].taskId == rows[j].id
    ensures !(rows[i].id in versions && versions[rows[i].id] == ToVersion(rows[i]))
    ensures !(rows[j].id in versions && versions[rows[j].id] == ToVersion(rows[j]))
  {
    hide HybridPayloads, ToVersion;
    var n := |rows| - 1;
    var front, block := Iterations(rows[..n], versions), SentFor(rows[n], versions);
    assert Iterations(rows, versions) == front + block;
    PayloadOwner(rows[n], Known(versions, rows[n].id));
    if b < |front| {
      i, j := IterationsInOrder(rows[..n], versions, a, b);
    } else {
      j := n;
      assert block[b - |front|] in block;
      if a < |front| {
        i, j := IterationsInOrder(rows[..n], versions, a, a);
        j := n;
      } else {
        assert block[a - |front|] in block;
        i := n;
      }
    }
  }

  /** What a poll sends for one task, and the version it remembers. */
  function SentFor(row: TaskRow, versions: map<nat, string>): seq<HybridPayload> {
    if Changed(row, versions) then HybridPayloads(row, Known(versions, row.id)) else []
  }

  lemma {:induction false} AbsentTask(rows: seq<TaskRow>, versions: map<nat, string>, id: nat)
    requires forall i :: 0 <= i < |rows| ==> rows[i].id != id
    ensures Of(Iterations(rows, versions), id) == [] && Known(NextVersions(rows, versions), id) == Known(versions, id)
  {
    hide HybridPayloads, Changed, ToVersion;
    if rows != [] {
      var front, last := rows[..|rows| - 1], rows[|rows| - 1];
      AbsentTask(front, versions, id);
      PayloadOwner(last, Known(versions, last.id));
      OfOne(SentFor(last, versions), last.id, id);
      OfConcat(Iterations(front, versions), SentFor(last, versions), id);
    }
  }

  lemma {:induction false} PresentTask(rows: seq<TaskRow>, versions: map<nat, string>, k: nat)
    requires DistinctIds(rows) && k < |rows|
    ensures Of(Iterations(rows, versions), rows[k].id) == SentFor(rows[k], versions)
    ensures Known(NextVersions(rows, versions), rows[k].id) == Option.Some(ToVersion(rows[k]))
  {
    hide HybridPayloads, Changed, ToVersion;
    var front, last, id := rows[..|rows| - 1], rows[|rows| - 1], rows[k].id;
    PayloadOwner(last, Known(versions, last.id));
    OfOne(SentFor(last, versions), last.id, id);
    OfConcat(Iterations(front, versions), SentFor(last, versions), id);
    if k == |rows| - 1 {
      AbsentTask(front, versions, id);
    } else {
      PresentTask(front, versions, k);
    }
  }

  /** The payloads of a series of polls. */
  function Emitted(polls: seq<seq<TaskRow>>, versions: map<nat, string>): seq<HybridPayload>
    decreases polls
  {
    if polls == [] then [] else Iterations(polls[0], versions) + Emitted(polls[1..], NextVersions(polls[0], versions))
  }

  /** The polls see the task never with fewer iterations than before; a poll may miss it. */
  ghost predicate Growing(polls: seq<seq<TaskRow>>, id: nat, trace: nat -> Point, counts: seq<nat>) {
    && |counts| == |polls|
    && (forall i, j :: 0 <= i < j < |counts| ==> counts[i] <= counts[j])
    && (forall i :: 0 <= i < |polls| ==> Sees(polls[i], id, trace, counts[i]))
  }

  /** The rows of one poll; the task, if there, stores `k` iterations. */
  predicate Sees(rows: seq<TaskRow>, id: nat, trace: nat -> Point, k: nat) {
    DistinctIds(rows) && forall i :: 0 <= i < |rows| && rows[i].id == id ==> Shows(rows[i], trace, k)
  }

  predicate Present(rows: seq<TaskRow>, id: nat) {
    exists k :: 0 <= k < |rows| && rows[k].id == id
  }

  /** The iterations announced at the end: those of the last poll that saw the task. */
  function LastSeen(polls: seq<seq<TaskRow>>, id: nat, counts: seq<nat>, seen: nat): nat
    requires |counts| == |polls|
    decreases polls
  {
    if polls == [] then seen
    else LastSeen(polls[1..], id, counts[1..], if Present(polls[0], id) then counts[0] else seen)
  }

  /** The remembered version stands for `seen` iterations. */
  ghost predicate Remembers(versions: map<nat, string>, id: nat, seen: nat) {
    if id in versions then exists row :: Remembered(versions[id], row, seen) else seen == 0
  }

  predicate Remembered(version: string, row: TaskRow, seen: nat) {
    version == ToVersion(row) && IterationOrNone(row) == if seen == 0 then -1 else seen
  }

  lemma PollOnce(row: TaskRow, versions: map<nat, string>, trace: nat -> Point, seen: nat, k: nat)
    requires Remembers(versions, row.id, seen) && Shows(row, trace, k) && seen <= k
    ensures AnnouncesRange(SentFor(row, versions), row.id, trace, seen, k)
  {
    hide HybridPayloads, ToVersion, Shows, AnnouncesRange, IterationOrNone, ParsePreviousIteration;
    ShownIteration(row, trace, k);
    VersionRoundTrip(row);
    if row.id in versions {
      var earlier :| Remembered(versions[row.id], earlier, seen);
      VersionRoundTrip(earlier);
    } else {
      assert ParsePreviousIteration(Option.None) == -1 by { NothingParsed(); }
    }
    NewIterations(row, trace, seen, k, Known(versions, row.id));
    if !Changed(row, versions) {
      NothingAnnounced(row.id, trace, k);
    }
  }

  lemma NothingParsed()
    ensures ParsePreviousIteration(Option.None) == -1
  {}

  lemma NothingAnnounced(id: nat, trace: nat -> Point, k: nat)
    ensures AnnouncesRange([], id, trace, k, k)
  {}

  lemma RangeConcat(a: seq<HybridPayload>, b: seq<HybridPayload>, id: nat, trace: nat -> Point, from: nat, mid: nat,
                    to: nat)
    requires AnnouncesRange(a, id, trace, from, mid) && AnnouncesRange(b, id, trace, mid, to)
    ensures AnnouncesRange(a + b, id, trace, from, to)
  {
    hide Announces;
    forall j | 0 <= j < |a + b| ensures Announces((a + b)[j], id, trace, from + 1 + j) {
      if j >= |a| { assert Announces(b[j - |a|], id, trace, mid + 1 + (j - |a|)); }
    }
  }

  /**
   * Exactly once: while a trace only grows, the payloads sent for the task over any schedule of polls, some of which
   * may miss the task, are iterations 1, 2, ... of the last sight of it: in order, without a gap or a repetition.
   */
  lemma {:induction false} ExactlyOnce(polls: seq<seq<TaskRow>>, versions: map<nat, string>, id: nat,
                                       trace: nat -> Point, counts: seq<nat>, seen: nat)
    requires Growing(polls, id, trace, counts) && Remembers(versions, id, seen) && (counts != [] ==> seen <= counts[0])
    ensures AnnouncesRange(Of(Emitted(polls, versions), id), id, trace, seen, LastSeen(polls, id, counts, seen))
    decreases polls
  {
    hide Iterations, NextVersions, Shows, DistinctIds, AnnouncesRange, Remembers, Growing;
    if polls == [] {
      NothingAnnounced(id, trace, seen);
    } else {
      var rows, next := polls[0], NextVersions(polls[0], versions);
      GrowingTail(polls, id, trace, counts);
      OfConcat(Iterations(rows, versions), Emitted(polls[1..], next), id);
      if k :| 0 <= k < |rows| && rows[k].id == id {
        FirstPoll(polls, versions, id, trace, counts, seen, k);
        ExactlyOnce(polls[1..], next, id, trace, counts[1..], counts[0]);
        RangeConcat(Of(Iterations(rows, versions), id), Of(Emitted(polls[1..], next), id), id, trace, seen, counts[0],
                    LastSeen(polls, id, counts, seen));
      } else {
        AbsentTask(rows, versions, id);
        SameMemory(versions, next, id, seen);
        ExactlyOnce(polls[1..], next, id, trace, counts[1..], seen);
        assert [] + Of(Emitted(polls[1..], next), id) == Of(Emitted(polls[1..], next), id);
      }
    }
  }

  lemma GrowingTail(polls: seq<seq<TaskRow>>, id: nat, trace: nat -> Point, counts: seq<nat>)
    requires Growing(polls, id, trace, counts) && polls != []
    ensures Growing(polls[1..], id, trace, counts[1..]) && |counts| == |polls|
    ensures |counts| > 1 ==> counts[0] <= counts[1]
  {
    hide Sees;
  }

  lemma SameMemory(versions: map<nat, string>, next: map<nat, string>, id: nat, seen: nat)
    requires Remembers(versions, id, seen) && Known(next, id) == Known(versions, id)
    ensures Remembers(next, id, seen)
  {}

  lemma FirstPoll(polls: seq<seq<TaskRow>>, versions: map<nat, string>, id: nat, trace: nat -> Point, counts: seq<nat>,
                  seen: nat, k: nat)
    requires Growing(polls, id, trace, counts) && Remembers(versions, id, seen) && polls != [] && seen <= counts[0]
    requires k < |polls[0]| && polls[0][k].id == id
    ensures AnnouncesRange(Of(Iterations(polls[0], versions), id), id, trace, seen, counts[0])
    ensures Remembers(NextVersions(polls[0], versions), id, counts[0])
  {
    hide Iterations, NextVersions, Shows, AnnouncesRange, ToVersion, IterationOrNone;
    var row := polls[0][k];
    assert Sees(polls[0], id, trace, counts[0]);
    PresentTask(polls[0], versions, k);
    PollOnce(row, versions, trace, seen, counts[0]);
    ShownIteration(row, trace, counts[0]);
    assert Remembered(ToVersion(row), row, counts[0]);
  }

  /** From the start of a stream: the payloads are exactly iterations 1 to the last count seen. */
  lemma StreamFromStart(polls: seq<seq<TaskRow>>, id: nat, trace: nat -> Point, counts: seq<nat>)
    requires Growing(polls, id, trace, counts)
    ensures AnnouncesRange(Of(Emitted(polls, map[]), id), id, trace, 0, LastSeen(polls, id, counts, 0))
  {
    ExactlyOnce(polls, map[], id, trace, counts, 0);
  }

  // ----- a retry, whose trace starts again

  /** The first sight of a retry that has not overtaken the previous attempt sends nothing, but it is remembered. */
  lemma FirstSightOfRetry(rows: seq<TaskRow>, versions: map<nat, string>, id: nat, trace: nat -> Point, seen: nat,
                          start: nat)
    requires Remembers(versions, id, seen) && start <= seen && Sees(rows, id, trace, start) && Present(rows, id)
    ensures Of(Iterations(rows, versions), id) == [] && Remembers(NextVersions(rows, versions), id, start)
  {
    hide Iterations, NextVersions, ToVersion, IterationOrNone, ParsePreviousIteration, Shows;
    var k :| 0 <= k < |rows| && rows[k].id == id;
    PresentTask(rows, versions, k);
    ShownIteration(rows[k], trace, start);
    assert Remembered(ToVersion(rows[k]), rows[k], start);
    if id in versions {
      var earlier :| Remembered(versions[id], earlier, seen);
      VersionRoundTrip(earlier);
      NothingOvertaken(rows[k], trace, start, seen, Known(versions, id));
    } else {
      PollOnce(rows[k], versions, trace, 0, 0);
    }
  }

  lemma NothingOvertaken(row: TaskRow, trace: nat -> Point, start: nat, seen: nat, version: Option<string>)
    requires Shows(row, trace, start) && start <= seen
      && ParsePreviousIteration(version) == if seen == 0 then -1 else seen
    ensures HybridPayloads(row, version) == []
  {
    hide ParsePreviousIteration;
    if row.result.Hybrid? {
      if start == 0 {
        assert Entries(trace, 0) == [];
      } else {
        CollectNothing(row, trace, start, seen);
      }
    }
  }

  /**
   * A retry that is first seen with `start` iterations, no more than the previous attempt had, is announced from
   * iteration `start + 1` on: the version of its first sight replaces that of the previous attempt.
   */
  lemma RetryAnnounced(first: seq<TaskRow>, later: seq<seq<TaskRow>>, versions: map<nat, string>, id: nat,
                       trace: nat -> Point, counts: seq<nat>, seen: nat, start: nat)
    requires Remembers(versions, id, seen) && start <= seen && Sees(first, id, trace, start) && Present(first, id)
    requires Growing(later, id, trace, counts) && (counts != [] ==> start <= counts[0])
    ensures AnnouncesRange(Of(Emitted([first] + later, versions), id), id, trace, start,
                           LastSeen(later, id, counts, start))
  {
    hide Iterations, NextVersions, Sees, AnnouncesRange, Remembers, Growing, LastSeen;
    var polls, next := [first] + later, NextVersions(first, versions);
    assert polls[1..] == later && polls[0] == first;
    FirstSightOfRetry(first, versions, id, trace, seen, start);
    ExactlyOnce(later, next, id, trace, counts, start);
    OfConcat(Iterations(first, versions), Emitted(later, next), id);
    assert [] + Of(Emitted(later, next), id) == Of(Emitted(later, next), id);
  }

  /** The last count grows beyond `seen` exactly when some poll sees the task with more. */
  lemma {:induction false} LastSeenAbove(polls: seq<seq<TaskRow>>, id: nat, counts: seq<nat>, seen: nat, bound: nat)
    requires |counts| == |polls| && (forall i, j :: 0 <= i < j < |counts| ==> counts[i] <= counts[j]) && seen <= bound
    ensures LastSeen(polls, id, counts, seen) > bound <==>
      exists i :: 0 <= i < |polls| && Present(polls[i], id) && counts[i] > bound
    decreases polls
  {
    if polls != [] {
      var here := if Present(polls[0], id) then counts[0] else seen;
      if here > bound {
        LastSeenAtLeast(polls[1..], id, counts[1..], here);
      } else {
        LastSeenAbove(polls[1..], id, counts[1..], here, bound);
        forall i | 0 <= i < |polls| - 1 ensures polls[1..][i] == polls[i + 1] && counts[1..][i] == counts[i + 1] {}
      }
    }
  }

  lemma {:induction false} LastSeenAtLeast(polls: seq<seq<TaskRow>>, id: nat, counts: seq<nat>, seen: nat)
    requires |counts| == |polls| && (forall i, j :: 0 <= i < j < |counts| ==> counts[i] <= counts[j])
    requires counts != [] ==> seen <= counts[0]
    ensures LastSeen(polls, id, counts, seen) >= seen
    decreases polls
  {
    if polls != [] {
      var here := if Present(polls[0], id) then counts[0] else seen;
      LastSeenAtLeast(polls[1..], id, counts[1..], here);
    }
  }

  /** The count at the first sight of the task in these polls, or `seen` if they all miss it. */
  function FirstSeen(polls: seq<seq<TaskRow>>, id: nat, counts: seq<nat>, seen: nat): nat
    requires |counts| == |polls|
    decreases polls
  {
    if polls == [] then seen
    else if Present(polls[0], id) then counts[0]
    else FirstSeen(polls[1..], id, counts[1..], seen)
  }

  /** Announcing starts behind the first sight or behind the remembered count, whichever is lower. */
  function Lowest(polls: seq<seq<TaskRow>>, id: nat, counts: seq<nat>, seen: nat): nat
    requires |counts| == |polls|
  {
    var first := FirstSeen(polls, id, counts, seen);
    if first < seen then first else seen
  }

  lemma RemembersSight(rows: seq<TaskRow>, versions: map<nat, string>, id: nat, trace: nat -> Point, k: nat)
    requires Sees(rows, id, trace, k) && Present(rows, id)
    ensures Remembers(NextVersions(rows, versions), id, k)
  {
    hide NextVersions, ToVersion, IterationOrNone, Shows;
    var j :| 0 <= j < |rows| && rows[j].id == id;
    PresentTask(rows, versions, j);
    ShownIteration(rows[j], trace, k);
    assert Remembered(ToVersion(rows[j]), rows[j], k);
  }

  lemma GrowingHead(polls: seq<seq<TaskRow>>, id: nat, trace: nat -> Point, counts: seq<nat>)
    requires Growing(polls, id, trace, counts) && polls != []
    ensures |counts| == |polls| && Sees(polls[0], id, trace, counts[0])
  {
    hide Sees;
  }

  /** The versions after a series of polls. */
  function VersionsAfter(polls: seq<seq<TaskRow>>, versions: map<nat, string>): map<nat, string>
    decreases polls
  {
    if polls == [] then versions else VersionsAfter(polls[1..], NextVersions(polls[0], versions))
  }

  lemma {:induction false} RemembersLast(polls: seq<seq<TaskRow>>, versions: map<nat, string>, id: nat,
                                         trace: nat -> Point, counts: seq<nat>, seen: nat)
    requires Growing(polls, id, trace, counts) && Remembers(versions, id, seen)
    ensures Remembers(VersionsAfter(polls, versions), id, LastSeen(polls, id, counts, seen))
    decreases polls
  {
    hide NextVersions, Growing, Remembers, Sees, Present;
    if polls != [] {
      var rows, next := polls[0], NextVersions(polls[0], versions);
      GrowingHead(polls, id, trace, counts);
      GrowingTail(polls, id, trace, counts);
      if Present(rows, id) {
        RemembersSight(rows, versions, id, trace, counts[0]);
        RemembersLast(polls[1..], next, id, trace, counts[1..], counts[0]);
      } else {
        MissedPoll(rows, versions, id, seen);
        RemembersLast(polls[1..], next, id, trace, counts[1..], seen);
      }
    }
  }

  lemma MissedPoll(rows: seq<TaskRow>, versions: map<nat, string>, id: nat, seen: nat)
    requires !Present(rows, id) && Remembers(versions, id, seen)
    ensures Of(Iterations(rows, versions), id) == [] && Remembers(NextVersions(rows, versions), id, seen)
  {
    hide Iterations, NextVersions, Remembers;
    forall i | 0 <= i < |rows| ensures rows[i].id != id {}
    AbsentTask(rows, versions, id);
    SameMemory(versions, NextVersions(rows, versions), id, seen);
  }

  /** What any attempt adds, whatever was remembered before it and however many of its first polls miss the task. */
  lemma {:induction false} AttemptAnnounced(polls: seq<seq<TaskRow>>, versions: map<nat, string>, id: nat,
                                            trace: nat -> Point, counts: seq<nat>, seen: nat)
    requires Growing(polls, id, trace, counts) && Remembers(versions, id, seen)
    ensures |counts| == |polls|
    ensures AnnouncesRange(Of(Emitted(polls, versions), id), id, trace, Lowest(polls, id, counts, seen),
                           LastSeen(polls, id, counts, seen))
    decreases polls
  {
    hide Iterations, NextVersions, Growing, Remembers, Sees, Present, AnnouncesRange;
    if polls == [] {
      NoCounts(polls, id, trace, counts);
      NothingAnnounced(id, trace, seen);
    } else {
      var rows, later := polls[0], polls[1..];
      GrowingHead(polls, id, trace, counts);
      GrowingTail(polls, id, trace, counts);
      if !Present(rows, id) {
        var next := NextVersions(rows, versions);
        MissedPoll(rows, versions, id, seen);
        AttemptAnnounced(later, next, id, trace, counts[1..], seen);
        OfConcat(Iterations(rows, versions), Emitted(later, next), id);
        assert [] + Of(Emitted(later, next), id) == Of(Emitted(later, next), id);
      } else if counts[0] < seen {
        assert [rows] + later == polls;
        RetryAnnounced(rows, later, versions, id, trace, counts[1..], seen, counts[0]);
      } else {
        ExactlyOnce(polls, versions, id, trace, counts, seen);
      }
    }
  }

  lemma NoCounts(polls: seq<seq<TaskRow>>, id: nat, trace: nat -> Point, counts: seq<nat>)
    requires Growing(polls, id, trace, counts)
    ensures |counts| == |polls|
  {}

  /**
   * An attempt first seen with `start` iterations announces a number up to `top` exactly under this condition, for
   * every `top`: with the largest number announced before it, this says when it repeats one.
   */
  lemma RetryRepeats(first: seq<TaskRow>, later: seq<seq<TaskRow>>, versions: map<nat, string>, id: nat,
                     trace: nat -> Point, counts: seq<nat>, seen: nat, start: nat, top: nat)
    requires Remembers(versions, id, seen) && Sees(first, id, trace, start) && Present(first, id)
    requires Growing(later, id, trace, counts) && (counts != [] ==> start <= counts[0])
    ensures (exists p :: p in Of(Emitted([first] + later, versions), id) && p.iteration <= top) <==>
            if start > seen then seen < top
            else start < top && exists i :: 0 <= i < |later| && Present(later[i], id) && counts[i] > start
  {
    hide Emitted, Of, Remembers, Sees, LastSeen, Present, AnnouncesRange;
    var polls := [first] + later;
    assert polls[0] == first && polls[1..] == later && ([start] + counts)[1..] == counts;
    GrowingMore(first, later, id, trace, counts, start);
    NoCounts(later, id, trace, counts);
    LastSeenAbove(later, id, counts, start, start);
    LastSeenAtLeast(later, id, counts, start);
    var lo, last := if start < seen then start else seen, LastSeen(later, id, counts, start);
    AttemptAnnounced(polls, versions, id, trace, [start] + counts, seen);
    assert LastSeen(polls, id, [start] + counts, seen) == last by {
      LastSeenFirst(first, later, id, counts, start, seen);
    }
    RangeUpTo(Of(Emitted(polls, versions), id), id, trace, lo, last, top);
  }

  lemma LastSeenFirst(first: seq<TaskRow>, later: seq<seq<TaskRow>>, id: nat, counts: seq<nat>, start: nat, seen: nat)
    requires |counts| == |later| && Present(first, id)
    ensures LastSeen([first] + later, id, [start] + counts, seen) == LastSeen(later, id, counts, start)
  {
    assert ([first] + later)[1..] == later && ([start] + counts)[1..] == counts;
  }

  lemma GrowingMore(first: seq<TaskRow>, later: seq<seq<TaskRow>>, id: nat, trace: nat -> Point, counts: seq<nat>,
                    start: nat)
    requires Sees(first, id, trace, start) && Growing(later, id, trace, counts) && (counts != [] ==> start <= counts[0])
    ensures Growing([first] + later, id, trace, [start] + counts)
  {
    hide Sees;
    var polls, all := [first] + later, [start] + counts;
    forall i, j | 0 <= i < j < |all| ensures all[i] <= all[j] {
      if i == 0 && j > 1 { assert counts[0] <= counts[j - 1]; }
    }
  }

  /** A range of numbers reaches down to `top` exactly when it is not empty and starts below. */
  lemma RangeUpTo(ps: seq<HybridPayload>, id: nat, trace: nat -> Point, from: nat, to: nat, top: nat)
    requires AnnouncesRange(ps, id, trace, from, to)
    ensures (exists p :: p in ps && p.iteration <= top) <==> from < to && from < top
  {
    forall p | p in ps ensures p.iteration > from && from < to {
      var j :| 0 <= j < |ps| && ps[j] == p;
      assert Announces(ps[j], id, trace, from + 1 + j);
    }
    if from < to {
      assert Announces(ps[0], id, trace, from + 1 + 0);
      assert ps[0] in ps;
    }
  }

  /** A running row with `k` iterations. */
  function Running(id: nat, attempts: nat, trace: nat -> Point, k: nat): TaskRow {
    TaskRow(id, "running", "", attempts, Option.None,
            Hybrid(Option.Some(Entries(trace, k)), Option.None, Option.None, Option.None, Option.None))
  }

  /** Five iterations, then a retry that is seen with one and with two of them: number 2 is announced twice. */
  lemma SecondIterationTwice(trace: nat -> Point, id: nat)
    ensures var polls := [[Running(id, 1, trace, 5)], [Running(id, 2, trace, 1)], [Running(id, 2, trace, 2)]];
      var ps := Of(Emitted(polls, map[]), id);
      |ps| == 6 && (forall j :: 0 <= j < 5 ==> Announces(ps[j], id, trace, j + 1)) && Announces(ps[5], id, trace, 2)
  {
    hide Iterations, NextVersions, Entries, Announces, Of, ToVersion, IterationOrNone, Shows;
    var a, b, d := [Running(id, 1, trace, 5)], [Running(id, 2, trace, 1)], [Running(id, 2, trace, 2)];
    RunningShows(id, 1, trace, 5);
    RunningShows(id, 2, trace, 1);
    RunningShows(id, 2, trace, 2);
    FirstPoll([a], map[], id, trace, [5], 0, 0);
    var next := NextVersions(a, map[]);
    assert Present(b, id) by { assert b[0].id == id; }
    assert Present(d, id) by { assert d[0].id == id; }
    RetryAnnounced(b, [d], next, id, trace, [2], 5, 1);
    assert [b] + [d] == [b, d] && [a, b, d][1..] == [b, d];
    assert LastSeen([d], id, [2], 1) == 2 by { assert d[0].id == id; }
    OfConcat(Iterations(a, map[]), Emitted([b, d], next), id);
    var x, y := Of(Iterations(a, map[]), id), Of(Emitted([b, d], next), id);
    assert |x| == 5 && |y| == 1;
    forall j | 0 <= j < 5 ensures Announces((x + y)[j], id, trace, j + 1) {
      assert Announces(x[j], id, trace, 0 + 1 + j);
    }
    assert Announces(y[0], id, trace, 1 + 1 + 0);
  }

  lemma RunningShows(id: nat, attempts: nat, trace: nat -> Point, k: nat)
    ensures Shows(Running(id, attempts, trace, k), trace, k)
  {}

  // ----- the row of a failed task, whose result is dropped

  /** The task, if there, has no stored result any more. */
  predicate Dropped(rows: seq<TaskRow>, id: nat) {
    DistinctIds(rows) && forall i :: 0 <= i < |rows| && rows[i].id == id ==> rows[i].result.Opaque?
  }

  lemma {:induction false} DroppedSilent(polls: seq<seq<TaskRow>>, versions: map<nat, string>, id: nat)
    requires forall i :: 0 <= i < |polls| ==> Dropped(polls[i], id)
    ensures Of(Emitted(polls, versions), id) == []
    decreases polls
  {
    hide Iterations, NextVersions, ToVersion;
    if polls != [] {
      var rows, next := polls[0], NextVersions(polls[0], versions);
      DroppedSilent(polls[1..], next, id);
      OfConcat(Iterations(rows, versions), Emitted(polls[1..], next), id);
      if k :| 0 <= k < |rows| && rows[k].id == id {
        assert Dropped(rows, id);
        PresentTask(rows, versions, k);
      } else {
        AbsentTask(rows, versions, id);
      }
    }
  }

  lemma {:induction false} EmittedConcat(a: seq<seq<TaskRow>>, b: seq<seq<TaskRow>>, versions: map<nat, string>)
    ensures Emitted(a + b, versions) == Emitted(a, versions) + Emitted(b, VersionsAfter(a, versions))
    decreases a
  {
    hide Iterations, NextVersions;
    if a == [] {
      assert a + b == b;
    } else {
      assert (a + b)[1..] == a[1..] + b;
      EmittedConcat(a[1..], b, NextVersions(a[0], versions));
    }
  }

  /**
   * A failing attempt is announced once to its last stored iteration; its final row, without a result, adds nothing.
   */
  lemma FailedAttempt(polls: seq<seq<TaskRow>>, final: seq<seq<TaskRow>>, id: nat, trace: nat -> Point,
                      counts: seq<nat>)
    requires Growing(polls, id, trace, counts) && forall i :: 0 <= i < |final| ==> Dropped(final[i], id)
    ensures AnnouncesRange(Of(Emitted(polls + final, map[]), id), id, trace, 0, LastSeen(polls, id, counts, 0))
  {
    hide Emitted, Of, Growing, Dropped, LastSeen, AnnouncesRange, VersionsAfter;
    StreamFromStart(polls, id, trace, counts);
    EmittedConcat(polls, final, map[]);
    DroppedSilent(final, VersionsAfter(polls, map[]), id);
    OfConcat(Emitted(polls, map[]), Emitted(final, VersionsAfter(polls, map[])), id);
    var sent := Of(Emitted(polls, map[]), id);
    assert sent + [] == sent;
  }

  // ----- any number of attempts

  /** The polls of one attempt, the counts they see, and the trace it stores. */
  datatype Attempt = Attempt(polls: seq<seq<TaskRow>>, counts: seq<nat>, trace: nat -> Point)

  ghost predicate Observed(a: Attempt, id: nat) { Growing(a.polls, id, a.trace, a.counts) }

  ghost predicate AllObserved(attempts: seq<Attempt>, id: nat) {
    forall a :: a in attempts ==> Observed(a, id) && |a.counts| == |a.polls|
  }

  function AllPolls(attempts: seq<Attempt>): seq<seq<TaskRow>> {
    if attempts == [] then [] else attempts[0].polls + AllPolls(attempts[1..])
  }

  /** The numbers from `lo + 1` to `hi`. */
  function Span(lo: nat, hi: nat): (r: seq<int>)
    ensures |r| == (if lo < hi then hi - lo else 0) && forall j :: 0 <= j < |r| ==> r[j] == lo + 1 + j
  {
    seq(if lo < hi then hi - lo else 0, (j: nat) => lo + 1 + j)
  }

  /** The numbers that a list of attempts announces, from what their polls see alone. */
  function Stream(attempts: seq<Attempt>, id: nat, seen: nat): seq<int>
    requires forall a :: a in attempts ==> |a.counts| == |a.polls|
  {
    if attempts == [] then []
    else
      var a := attempts[0];
      var last := LastSeen(a.polls, id, a.counts, seen);
      Span(Lowest(a.polls, id, a.counts, seen), last) + Stream(attempts[1..], id, last)
  }

  function Numbers(ps: seq<HybridPayload>): (r: seq<int>)
    ensures |r| == |ps| && forall j :: 0 <= j < |r| ==> r[j] == ps[j].iteration
  {
    seq(|ps|, (j: nat) requires j < |ps| => ps[j].iteration)
  }

  lemma RangeNumbers(ps: seq<HybridPayload>, id: nat, trace: nat -> Point, from: nat, to: nat)
    requires AnnouncesRange(ps, id, trace, from, to)
    ensures Numbers(ps) == Span(from, to)
  {
    forall j | 0 <= j < |ps| ensures Numbers(ps)[j] == Span(from, to)[j] {
      assert Announces(ps[j], id, trace, from + 1 + j);
    }
  }

  /** Over any list of attempts, the numbers announced are those of the stream. */
  lemma {:induction false} StreamNumbers(attempts: seq<Attempt>, versions: map<nat, string>, id: nat, seen: nat)
    requires AllObserved(attempts, id) && Remembers(versions, id, seen)
    ensures Numbers(Of(Emitted(AllPolls(attempts), versions), id)) == Stream(attempts, id, seen)
  {
    hide Emitted, Of, Remembers, Growing, LastSeen, Lowest, AnnouncesRange, Span, Numbers, VersionsAfter;
    if attempts == [] {
      NothingNumbered(versions, id);
    } else {
      var a, rest := attempts[0], AllPolls(attempts[1..]);
      assert Observed(a, id);
      var after, last := VersionsAfter(a.polls, versions), LastSeen(a.polls, id, a.counts, seen);
      EmittedConcat(a.polls, rest, versions);
      OfConcat(Emitted(a.polls, versions), Emitted(rest, after), id);
      AttemptAnnounced(a.polls, versions, id, a.trace, a.counts, seen);
      RemembersLast(a.polls, versions, id, a.trace, a.counts, seen);
      StreamNumbers(attempts[1..], after, id, last);
      RangeNumbers(Of(Emitted(a.polls, versions), id), id, a.trace, Lowest(a.polls, id, a.counts, seen), last);
      NumbersConcat(Of(Emitted(a.polls, versions), id), Of(Emitted(rest, after), id));
    }
  }

  lemma NothingNumbered(versions: map<nat, string>, id: nat)
    ensures Numbers(Of(Emitted([], versions), id)) == []
  {}

  lemma NumbersConcat(a: seq<HybridPayload>, b: seq<HybridPayload>)
    ensures Numbers(a + b) == Numbers(a) + Numbers(b)
  {}

  predicate PairwiseDistinct(s: seq<int>) {
    forall i, j :: 0 <= i < j < |s| ==> s[i] != s[j]
  }

  predicate AllAbove(s: seq<int>, top: nat) {
    forall i :: 0 <= i < |s| ==> s[i] > top
  }

  /**
   * Every attempt that announces anything starts behind the largest number announced so far, which is `top`: both its
   * first sight and the count remembered before it have reached that number.
   */
  predicate Orderly(attempts: seq<Attempt>, id: nat, seen: nat, top: nat)
    requires forall a :: a in attempts ==> |a.counts| == |a.polls|
  {
    attempts == [] ||
    var a := attempts[0];
    var lo, last := Lowest(a.polls, id, a.counts, seen), LastSeen(a.polls, id, a.counts, seen);
    (lo < last ==> lo >= top) && Orderly(attempts[1..], id, last, if last > top then last else top)
  }

  lemma InSpan(x: int, lo: nat, hi: nat)
    ensures x in Span(lo, hi) <==> lo < x <= hi
  {
    if lo < x <= hi { assert Span(lo, hi)[x - lo - 1] == x; }
  }

  /** Joining a range that starts no higher than `top` to what follows. */
  lemma JoinDistinct(lo: nat, last: nat, rest: seq<int>, top: nat)
    requires lo <= top && lo <= last
    ensures var most := if last > top then last else top;
      PairwiseDistinct(Span(lo, last) + rest) && AllAbove(Span(lo, last) + rest, top) <==>
      (lo < last ==> lo >= top) && PairwiseDistinct(rest) && AllAbove(rest, most)
  {
    hide Span;
    var span, most := Span(lo, last), if last > top then last else top;
    var all := span + rest;
    assert forall j :: 0 <= j < |rest| ==> all[|span| + j] == rest[j];
    if PairwiseDistinct(all) && AllAbove(all, top) {
      if lo < last { assert all[0] == lo + 1; }
      forall j | 0 <= j < |rest| ensures rest[j] > most {
        assert all[|span| + j] > top;
        forall i | 0 <= i < |span| ensures span[i] != rest[j] { assert all[i] != all[|span| + j]; }
        InSpan(rest[j], lo, last);
      }
      forall i, j | 0 <= i < j < |rest| ensures rest[i] != rest[j] { assert all[|span| + i] != all[|span| + j]; }
    }
  }

  lemma {:induction false} StreamDistinct(attempts: seq<Attempt>, id: nat, seen: nat, top: nat)
    requires AllObserved(attempts, id) && seen <= top
    ensures PairwiseDistinct(Stream(attempts, id, seen)) && AllAbove(Stream(attempts, id, seen), top) <==>
            Orderly(attempts, id, seen, top)
  {
    hide LastSeen, Lowest, PairwiseDistinct, AllAbove, Span, Growing;
    if attempts == [] {
      EmptyDistinct(top);
    } else {
      var a := attempts[0];
      assert Observed(a, id);
      var lo, last := Lowest(a.polls, id, a.counts, seen), LastSeen(a.polls, id, a.counts, seen);
      LowestBounds(a, id, seen);
      JoinDistinct(lo, last, Stream(attempts[1..], id, last), top);
      StreamDistinct(attempts[1..], id, last, if last > top then last else top);
    }
  }

  lemma EmptyDistinct(top: nat)
    ensures PairwiseDistinct([]) && AllAbove([], top)
  {}

  lemma LowestBounds(a: Attempt, id: nat, seen: nat)
    requires Observed(a, id) && |a.counts| == |a.polls|
    ensures Lowest(a.polls, id, a.counts, seen) <= seen
    ensures Lowest(a.polls, id, a.counts, seen) <= LastSeen(a.polls, id, a.counts, seen)
  {
    FirstBeforeLast(a.polls, id, a.counts, seen);
  }

  lemma {:induction false} FirstBeforeLast(polls: seq<seq<TaskRow>>, id: nat, counts: seq<nat>, seen: nat)
    requires |counts| == |polls| && (forall i, j :: 0 <= i < j < |counts| ==> counts[i] <= counts[j])
    ensures FirstSeen(polls, id, counts, seen) <= LastSeen(polls, id, counts, seen)
    decreases polls
  {
    hide Present;
    if polls != [] {
      if Present(polls[0], id) {
        LastSeenAtLeast(polls[1..], id, counts[1..], counts[0]);
      } else {
        FirstBeforeLast(polls[1..], id, counts[1..], seen);
      }
    }
  }

  lemma {:induction false} StreamPositive(attempts: seq<Attempt>, id: nat, seen: nat)
    requires forall a :: a in attempts ==> |a.counts| == |a.polls|
    ensures AllAbove(Stream(attempts, id, seen), 0)
  {
    hide LastSeen, Lowest;
    if attempts != [] {
      var a := attempts[0];
      StreamPositive(attempts[1..], id, LastSeen(a.polls, id, a.counts, seen));
    }
  }

  /**
   * A stream, up to and including the final rows of a failed task, announces no iteration number twice exactly when
   * every attempt that announces anything starts behind the largest number announced before it.
   */
  lemma NoRepeatsExactly(attempts: seq<Attempt>, final: seq<seq<TaskRow>>, id: nat)
    requires AllObserved(attempts, id) && forall i :: 0 <= i < |final| ==> Dropped(final[i], id)
    ensures PairwiseDistinct(Numbers(Of(Emitted(AllPolls(attempts) + final, map[]), id))) <==>
      Orderly(attempts, id, 0, 0)
  {
    hide Emitted, Of, Stream, Orderly, PairwiseDistinct, AllAbove, AllObserved, Dropped, VersionsAfter, AllPolls;
    var polls := AllPolls(attempts);
    EmittedConcat(polls, final, map[]);
    DroppedSilent(final, VersionsAfter(polls, map[]), id);
    OfConcat(Emitted(polls, map[]), Emitted(final, VersionsAfter(polls, map[])), id);
    var sent := Of(Emitted(polls, map[]), id);
    assert sent + [] == sent;
    StreamNumbers(attempts, map[], id, 0);
    StreamDistinct(attempts, id, 0, 0);
    assert forall a :: a in attempts ==> |a.counts| == |a.polls| by { ObservedCounts(attempts, id); }
    StreamPositive(attempts, id, 0);
  }

  lemma ObservedCounts(attempts: seq<Attempt>, id: nat)
    requires AllObserved(attempts, id)
    ensures forall a :: a in attempts ==> |a.counts| == |a.polls|
  {
    hide Observed;
  }

  /** Polls that see a running attempt with these counts. */
  function Sights(id: nat, number: nat, trace: nat -> Point, counts: seq<nat>): Attempt {
    Attempt(seq(|counts|, (i: nat) requires i < |counts| => [Running(id, number, trace, counts[i])]), counts, trace)
  }

  lemma SightsObserved(id: nat, number: nat, trace: nat -> Point, counts: seq<nat>)
    requires forall i, j :: 0 <= i < j < |counts| ==> counts[i] <= counts[j]
    ensures Observed(Sights(id, number, trace, counts), id)
  {
    hide Shows;
    forall i | 0 <= i < |counts| ensures Sees([Running(id, number, trace, counts[i])], id, trace, counts[i]) {
      RunningShows(id, number, trace, counts[i]);
    }
  }

  lemma {:induction false} SightsSpan(id: nat, number: nat, trace: nat -> Point, counts: seq<nat>, seen: nat)
    requires counts != []
    ensures var a := Sights(id, number, trace, counts);
      && LastSeen(a.polls, id, a.counts, seen) == counts[|counts| - 1]
      && Lowest(a.polls, id, a.counts, seen) == if counts[0] < seen then counts[0] else seen
  {
    var a := Sights(id, number, trace, counts);
    assert Present(a.polls[0], id) by { assert a.polls[0][0].id == id; }
    if |counts| > 1 {
      SightsSpan(id, number, trace, counts[1..], counts[0]);
      assert Sights(id, number, trace, counts[1..]).polls == a.polls[1..];
    }
  }

  /** Three attempts, seen with five, with one and two, and with two and three iterations: 3 is announced twice, too. */
  lemma ThreeAttempts(trace: nat -> Point, id: nat)
    ensures var attempts := [Sights(id, 1, trace, [5]), Sights(id, 2, trace, [1, 2]), Sights(id, 3, trace, [2, 3])];
      Numbers(Of(Emitted(AllPolls(attempts), map[]), id)) == [1, 2, 3, 4, 5, 2, 3]
  {
    hide Emitted, Of, Sights, LastSeen, Lowest, Numbers, Observed;
    var a, b, d := Sights(id, 1, trace, [5]), Sights(id, 2, trace, [1, 2]), Sights(id, 3, trace, [2, 3]);
    SightsObserved(id, 1, trace, [5]);
    SightsObserved(id, 2, trace, [1, 2]);
    SightsObserved(id, 3, trace, [2, 3]);
    SightsCounts(id, 1, trace, [5]);
    SightsCounts(id, 2, trace, [1, 2]);
    SightsCounts(id, 3, trace, [2, 3]);
    SightsSpan(id, 1, trace, [5], 0);
    SightsSpan(id, 2, trace, [1, 2], 5);
    SightsSpan(id, 3, trace, [2, 3], 2);
    StreamNumbers([a, b, d], map[], id, 0);
    assert [a, b, d][1..] == [b, d] && [b, d][1..] == [d] && [d][1..] == [];
    assert Stream([d], id, 2) == Span(2, 3) + [];
    assert Stream([b, d], id, 5) == Span(1, 2) + Stream([d], id, 2);
    assert Stream([a, b, d], id, 0) == Span(0, 5) + Stream([b, d], id, 5);
  }

  lemma SightsCounts(id: nat, number: nat, trace: nat -> Point, counts: seq<nat>)
    ensures var a := Sights(id, number, trace, counts);
      |a.counts| == |a.polls| && a.counts == counts && a.trace == trace
  {}

  // ----- the same rows again

  lemma {:induction false} NothingNew(rows: seq<TaskRow>, versions: map<nat, string>)
    requires forall k :: 0 <= k < |rows| ==> Known(versions, rows[k].id) == Option.Some(ToVersion(rows[k]))
    ensures Statuses(rows, versions) == [] && Iterations(rows, versions) == []
  {
    hide ToVersion, HybridPayloads;
    if rows != [] {
      NothingNew(rows[..|rows| - 1], versions);
    }
  }

  /** A poll that sees the same rows again sends nothing. */
  lemma SecondPollSilent(rows: seq<TaskRow>, versions: map<nat, string>)
    requires DistinctIds(rows)
    ensures Statuses(rows, NextVersions(rows, versions)) == [] && Iterations(rows, NextVersions(rows, versions)) == []
  {
    hide ToVersion, HybridPayloads, NextVersions, Statuses, Iterations;
    forall k | 0 <= k < |rows|
      ensures Known(NextVersions(rows, versions), rows[k].id) == Option.Some(ToVersion(rows[k]))
    {
      PresentTask(rows, versions, k);
    }
    NothingNew(rows, NextVersions(rows, versions));
  }
}
