/** Reassembling server-sent events from network chunks. */
module EventStream {
  import opened Options
  import opened Text

  // ----- splitting at blank lines

  /** Pieces between leftmost, non-overlapping blank lines. */
  function SplitBlocks(s: string): (r: seq<string>)
    ensures |r| >= 1
  {
    if |s| < 2 then [s]
    else if s[0] == '\n' && s[1] == '\n' then [""] + SplitBlocks(s[2..])
    else
      var r := SplitBlocks(s[1..]);
      [[s[0]] + r[0]] + r[1..]
  }

  function Complete(parts: seq<string>): seq<string>
    requires parts != []
  {
    parts[..|parts| - 1]
  }

  function Rest(parts: seq<string>): string
    requires parts != []
  {
    parts[|parts| - 1]
  }

  lemma {:induction false} SingleBlock(s: string)
    ensures |SplitBlocks(s)| == 1 ==> SplitBlocks(s) == [s]
  {
    if |s| >= 2 && !(s[0] == '\n' && s[1] == '\n') {
      SingleBlock(s[1..]);
      assert s == [s[0]] + s[1..];
    }
  }

  /** One step of the splitting. */
  lemma SplitHead(s: string)
    ensures SplitBlocks(s) ==
            if |s| < 2 then [s] else if s[0] == '\n' && s[1] == '\n' then [""] + SplitBlocks(s[2..])
            else [[s[0]] + SplitBlocks(s[1..])[0]] + SplitBlocks(s[1..])[1..]
  {}

  /** Splitting a text is splitting a prefix, keeping its last piece, and splitting that piece with what follows. */
  lemma {:induction false} SplitResumes(a: string, b: string)
    ensures SplitBlocks(a + b) == Complete(SplitBlocks(a)) + SplitBlocks(Rest(SplitBlocks(a)) + b)
  {
    hide SplitBlocks;
    var r := SplitBlocks(a);
    SingleBlock(a);
    SplitHead(a);
    SplitHead(a + b);
    if |r| == 1 {
      assert Complete(r) == [];
    } else if a[0] == '\n' && a[1] == '\n' {
      var q := SplitBlocks(a[2..]);
      SplitResumes(a[2..], b);
      assert (a + b)[2..] == a[2..] + b;
      assert Complete(r) == [""] + Complete(q) && Rest(r) == Rest(q);
      ConcatAssociates([""], Complete(q), SplitBlocks(Rest(q) + b));
    } else {
      var q := SplitBlocks(a[1..]);
      SplitResumes(a[1..], b);
      assert (a + b)[1..] == a[1..] + b && (a + b)[0] == a[0] && (a + b)[1] == a[1];
      Regroup(a[0], q, SplitBlocks(Rest(q) + b));
    }
  }

  /** Prefixing the first of several pieces leaves the last one alone. */
  lemma Regroup(x: char, q: seq<string>, more: seq<string>)
    requires |q| > 1
    ensures var r, whole := [[x] + q[0]] + q[1..], Complete(q) + more;
      Rest(r) == Rest(q) && [[x] + whole[0]] + whole[1..] == Complete(r) + more
  {}

  // ----- one block

  datatype BlockResult<T> = Nothing | Throws | Message(event: string, data: T)

  datatype Fields = Fields(eventName: string, dataText: string)

  const EVENT := "event:"
  const DATA := "data:"

  function Line(f: Fields, line: string): Fields {
    if EVENT <= line then f.(eventName := Trim(line[|EVENT|..]))
    else if DATA <= line then f.(dataText := f.dataText + Trim(line[|DATA|..]))
    else f
  }

  function Lines(f: Fields, lines: seq<string>): Fields {
    if lines == [] then f else Line(Lines(f, lines[..|lines| - 1]), lines[|lines| - 1])
  }

  /** `json` is the host's JSON reader. */
  function BlockMeaning<T>(json: string -> Option<T>, block: string): BlockResult<T> {
    var f := Lines(Fields("message", ""), Split(block, '\n'));
    if f.dataText == "" then Nothing
    else
      match json(f.dataText)
      case None => Throws
      case Some(data) => Message(f.eventName, data)
  }

  method ParseEventBlock<T>(json: string -> Option<T>, block: string) returns (r: BlockResult<T>)
    ensures r == BlockMeaning(json, block)
  {
    var lines := Split(block, '\n');
    var eventName, dataText := "message", "";
    assert lines[..0] == [];
    for k := 0 to |lines|
      invariant Fields(eventName, dataText) == Lines(Fields("message", ""), lines[..k])
    {
      assert lines[..k + 1][..k] == lines[..k];
      if EVENT <= lines[k] {
        eventName := Trim(lines[k][|EVENT|..]);
        continue;
      }
      if DATA <= lines[k] {
        dataText := dataText + Trim(lines[k][|DATA|..]);
      }
    }
    assert lines[..|lines|] == lines;
    if dataText == "" {
      return Nothing;
    }
    var data := json(dataText);
    match data
    case None => return Throws;
    case Some(d) => return Message(eventName, d);
  }

  /** The trimmed data of all data lines, one after the other. */
  function DataOf(lines: seq<string>): string {
    if lines == [] then ""
    else (if "data:" <= lines[0] then Trim(lines[0][5..]) else "") + DataOf(lines[1..])
  }

  lemma {:induction false} DataSnoc(lines: seq<string>, line: string)
    ensures DataOf(lines + [line]) == DataOf(lines) + if "data:" <= line then Trim(line[5..]) else ""
  {
    hide Trim;
    if lines == [] {
      assert [] + [line] == [line] && [line][1..] == [];
    } else {
      assert (lines + [line])[1..] == lines[1..] + [line];
      DataSnoc(lines[1..], line);
    }
  }

  /** The last event line names the event; without one it is a message. */
  predicate NamesEvent(lines: seq<string>, name: string) {
    if forall i :: 0 <= i < |lines| ==> !("event:" <= lines[i]) then name == "message"
    else exists i :: 0 <= i < |lines| && LastNamed(lines, i) && name == Trim(lines[i][6..])
  }

  predicate LastNamed(lines: seq<string>, i: nat)
    requires i < |lines|
  {
    "event:" <= lines[i] && forall j :: i < j < |lines| ==> !("event:" <= lines[j])
  }

  lemma NamesSnoc(lines: seq<string>, line: string, name: string)
    requires NamesEvent(lines, name)
    ensures NamesEvent(lines + [line], if "event:" <= line then Trim(line[6..]) else name)
  {
    hide Trim;
    var all := lines + [line];
    if "event:" <= line {
      assert all[|lines|] == line && LastNamed(all, |lines|);
    } else if i :| 0 <= i < |lines| && LastNamed(lines, i) && name == Trim(lines[i][6..]) {
      assert all[i] == lines[i] && LastNamed(all, i);
    }
  }

  lemma {:induction false} FieldsExactly(lines: seq<string>)
    ensures var f := Lines(Fields("message", ""), lines);
      f.dataText == DataOf(lines) && NamesEvent(lines, f.eventName)
  {
    hide Trim, NamesEvent;
    if lines == [] {
      assert NamesEvent([], "message") by { NoLinesNamed(); }
    } else {
      var front, last := lines[..|lines| - 1], lines[|lines| - 1];
      FieldsExactly(front);
      DataSnoc(front, last);
      NamesSnoc(front, last, Lines(Fields("message", ""), front).eventName);
      assert lines == front + [last];
      assert last != "" ==> ("event:" <= last ==> last[0] == 'e') && ("data:" <= last ==> last[0] == 'd');
    }
  }

  lemma NoLinesNamed()
    ensures NamesEvent([], "message")
  {}

  /** What a block means: nothing without data, an error when the data are no JSON, and otherwise one message. */
  lemma BlockExactly<T>(json: string -> Option<T>, block: string)
    ensures var r, lines := BlockMeaning(json, block), Split(block, '\n');
      var data := DataOf(lines);
      && (r.Nothing? <==> data == "") && (r.Throws? <==> data != "" && json(data).None?)
      && (r.Message? ==> json(data) == Option.Some(r.data) && NamesEvent(lines, r.event))
  {
    FieldsExactly(Split(block, '\n'));
  }

  // ----- the events of a text

  /** Which events have a callback; a status callback is mandatory. */
  datatype Callbacks = Callbacks(heartbeat: bool, hybridIteration: bool)

  predicate Handles(c: Callbacks, event: string) {
    event == "task_status" || (event == "heartbeat" && c.heartbeat)
        || (event == "hybrid_iteration" && c.hybridIteration)
  }

  datatype Delivery<T> = Delivery(event: string, data: T)

  /** The callbacks made, and whether a block made the reader throw. */
  datatype Delivered<T> = Delivered(made: seq<Delivery<T>>, threw: bool)

  function Deliver<T>(json: string -> Option<T>, c: Callbacks, d: Delivered<T>, block: string): Delivered<T> {
    if d.threw then d
    else
      match BlockMeaning(json, Trim(block))
      case Nothing => d
      case Throws => d.(threw := true)
      case Message(event, data) => if Handles(c, event) then d.(made := d.made + [Delivery(event, data)]) else d
  }

  function DeliverAll<T>(json: string -> Option<T>, c: Callbacks, d: Delivered<T>, blocks: seq<string>): Delivered<T> {
    if blocks == [] then d else Deliver(json, c, DeliverAll(json, c, d, blocks[..|blocks| - 1]), blocks[|blocks| - 1])
  }

  lemma {:induction false} DeliverConcat<T>(json: string -> Option<T>, c: Callbacks, d: Delivered<T>, a: seq<string>,
                                            b: seq<string>)
    ensures DeliverAll(json, c, d, a + b) == DeliverAll(json, c, DeliverAll(json, c, d, a), b)
    decreases |b|
  {
    hide Deliver;
    if b == [] {
      assert a + b == a;
    } else {
      assert (a + b)[..|a + b| - 1] == a + b[..|b| - 1];
      DeliverConcat(json, c, d, a, b[..|b| - 1]);
    }
  }

  lemma {:induction false} ThrownStays<T>(json: string -> Option<T>, c: Callbacks, d: Delivered<T>, blocks: seq<string>)
    requires d.threw
    ensures DeliverAll(json, c, d, blocks) == d
  {
    if blocks != [] {
      ThrownStays(json, c, d, blocks[..|blocks| - 1]);
    }
  }

  /** What a reader of the whole text, given at once, delivers. */
  function OfText<T>(json: string -> Option<T>, c: Callbacks, text: string): Delivered<T> {
    DeliverAll(json, c, Delivered([], false), Complete(SplitBlocks(text)))
  }

  function Concat(chunks: seq<string>): string {
    if chunks == [] then "" else Concat(chunks[..|chunks| - 1]) + chunks[|chunks| - 1]
  }

  lemma TextGrows<T>(json: string -> Option<T>, c: Callbacks, text: string, chunk: string)
    ensures var parts := SplitBlocks(Rest(SplitBlocks(text)) + chunk);
      && OfText(json, c, text + chunk) == DeliverAll(json, c, OfText(json, c, text), Complete(parts))
      && Rest(SplitBlocks(text + chunk)) == Rest(parts)
  {
    hide DeliverAll, SplitBlocks;
    var earlier, parts := Complete(SplitBlocks(text)), SplitBlocks(Rest(SplitBlocks(text)) + chunk);
    SplitResumes(text, chunk);
    assert Complete(earlier + parts) == earlier + Complete(parts);
    DeliverConcat(json, c, Delivered([], false), earlier, Complete(parts));
  }

  // ----- the read loop

  /** After a throw, more text makes no difference. */
  lemma {:induction false} LaterText<T>(json: string -> Option<T>, c: Callbacks, chunks: seq<string>, read: nat,
                                        end: nat)
    requires read <= end <= |chunks| && OfText(json, c, Concat(chunks[..read])).threw
    ensures OfText(json, c, Concat(chunks[..end])) == OfText(json, c, Concat(chunks[..read]))
    decreases end
  {
    hide SplitBlocks, DeliverAll, OfText;
    if read < end {
      LaterText(json, c, chunks, read, end - 1);
      assert chunks[..end][..end - 1] == chunks[..end - 1];
      TextGrows(json, c, Concat(chunks[..end - 1]), chunks[end - 1]);
      ThrownStays(json, c, OfText(json, c, Concat(chunks[..end - 1])),
                  Complete(SplitBlocks(Rest(SplitBlocks(Concat(chunks[..end - 1]))) + chunks[end - 1])));
    }
  }

  /** The callback that is made as number `closeAfter` closes the connection. */
  predicate Closed<T>(closeAfter: Option<nat>, d: Delivered<T>) {
    closeAfter.Some? && |d.made| >= closeAfter.value > 0
  }

  /** What has been delivered after `k` chunks. */
  function After<T>(json: string -> Option<T>, c: Callbacks, chunks: seq<string>, k: nat): Delivered<T>
    requires k <= |chunks|
  {
    OfText(json, c, Concat(chunks[..k]))
  }

  /**
   * The chunks read by a loop that has read `k`: all, unless a block throws or a callback has closed the connection.
   */
  function ReadCount<T>(json: string -> Option<T>, c: Callbacks, chunks: seq<string>, closeAfter: Option<nat>,
                        k: nat): (r: nat)
    requires k <= |chunks|
    ensures k <= r <= |chunks|
    decreases |chunks| - k
  {
    if k == |chunks| || After(json, c, chunks, k).threw || Closed(closeAfter, After(json, c, chunks, k)) then k
    else ReadCount(json, c, chunks, closeAfter, k + 1)
  }

  /** What one connection delivers. */
  function Received<T>(json: string -> Option<T>, c: Callbacks, chunks: seq<string>,
                       closeAfter: Option<nat>): Delivered<T>
  {
    After(json, c, chunks, ReadCount(json, c, chunks, closeAfter, 0))
  }

  /** Everything the subscriber notices. */
  datatype Noticed<T> = Noticed(made: seq<Delivery<T>>, onError: bool, onDisconnect: bool)

  function Notices<T>(closeAfter: Option<nat>, d: Delivered<T>): Noticed<T> {
    Noticed(d.made, d.threw && !Closed(closeAfter, d), !Closed(closeAfter, d))
  }

  /**
   * Reads until the chunks end, a block throws, or the connection is closed, which is noticed between chunks only.
   * A failure is reported unless the connection was closed.
   */
  method Subscribe<T>(json: string -> Option<T>, c: Callbacks, chunks: seq<string>, closeAfter: Option<nat>)
    returns (delivered: Delivered<T>, read: nat, onError: bool, onDisconnect: bool)
    ensures read == ReadCount(json, c, chunks, closeAfter, 0) && delivered == Received(json, c, chunks, closeAfter)
    ensures closeAfter.None? ==> delivered == OfText(json, c, Concat(chunks))
    ensures Noticed(delivered.made, onError, onDisconnect) == Notices(closeAfter, delivered)
    ensures var closed := closeAfter.Some? && 0 < closeAfter.value <= |delivered.made|;
      onDisconnect == !closed && onError == (delivered.threw && !closed)
  {
    hide SplitBlocks, DeliverAll, Deliver, BlockMeaning, OfText;
    var buffer := "";
    delivered := Delivered([], false);
    read := 0;
    NothingYet(json, c);
    assert chunks[..0] == [];
    while read < |chunks| && !Closed(closeAfter, delivered)
      invariant read <= |chunks| && delivered == After(json, c, chunks, read) && !delivered.threw
      invariant buffer == Rest(SplitBlocks(Concat(chunks[..read])))
      invariant ReadCount(json, c, chunks, closeAfter, read) == ReadCount(json, c, chunks, closeAfter, 0)
    {
      var blocks := SplitBlocks(buffer + chunks[read]);
      assert chunks[..read + 1][..read] == chunks[..read];
      TextGrows(json, c, Concat(chunks[..read]), chunks[read]);
      delivered := DeliverBlocks(json, c, delivered, Complete(blocks));
      buffer := Rest(blocks);
      read := read + 1;
      if delivered.threw {
        break;
      }
    }
    var closed := Closed(closeAfter, delivered);
    WholeText(json, c, chunks, closeAfter);
    return delivered, read, delivered.threw && !closed, !closed;
  }

  /** A connection that nobody closes delivers the events of the text, however it was cut. */
  lemma WholeText<T>(json: string -> Option<T>, c: Callbacks, chunks: seq<string>, closeAfter: Option<nat>)
    ensures !Closed(closeAfter, Received(json, c, chunks, closeAfter)) ==>
      Received(json, c, chunks, closeAfter) == OfText(json, c, Concat(chunks))
  {
    hide OfText, Concat;
    var read := ReadCount(json, c, chunks, closeAfter, 0);
    StopReason(json, c, chunks, closeAfter, 0);
    assert chunks[..|chunks|] == chunks;
    if After(json, c, chunks, read).threw { LaterText(json, c, chunks, read, |chunks|); }
  }

  lemma {:induction false} StopReason<T>(json: string -> Option<T>, c: Callbacks, chunks: seq<string>,
                                         closeAfter: Option<nat>, k: nat)
    requires k <= |chunks|
    ensures var r := ReadCount(json, c, chunks, closeAfter, k);
      r < |chunks| ==> After(json, c, chunks, r).threw || Closed(closeAfter, After(json, c, chunks, r))
    decreases |chunks| - k
  {
    hide After, Closed;
    if !(k == |chunks| || After(json, c, chunks, k).threw || Closed(closeAfter, After(json, c, chunks, k))) {
      StopReason(json, c, chunks, closeAfter, k + 1);
    }
  }

  lemma DeliverNothing<T>(json: string -> Option<T>, c: Callbacks, start: Delivered<T>)
    ensures DeliverAll(json, c, start, []) == start
  {}

  lemma NextBlock<T>(json: string -> Option<T>, c: Callbacks, start: Delivered<T>, blocks: seq<string>, k: nat)
    requires k < |blocks|
    ensures var d := Deliver(json, c, DeliverAll(json, c, start, blocks[..k]), blocks[k]);
      DeliverAll(json, c, start, blocks[..k + 1]) == d && (d.threw ==> DeliverAll(json, c, start, blocks) == d)
  {
    hide Deliver;
    assert blocks[..k + 1][..k] == blocks[..k];
    var d := DeliverAll(json, c, start, blocks[..k + 1]);
    if d.threw {
      ThrownStays(json, c, d, blocks[k + 1..]);
      DeliverConcat(json, c, start, blocks[..k + 1], blocks[k + 1..]);
      assert blocks[..k + 1] + blocks[k + 1..] == blocks;
    }
  }

  method DeliverBlocks<T>(json: string -> Option<T>, c: Callbacks, start: Delivered<T>, blocks: seq<string>)
    returns (d: Delivered<T>)
    requires !start.threw
    ensures d == DeliverAll(json, c, start, blocks)
  {
    hide DeliverAll, BlockMeaning, Handles;
    d := start;
    DeliverNothing(json, c, start);
    assert blocks[..0] == [];
    for k := 0 to |blocks|
      invariant d == DeliverAll(json, c, start, blocks[..k]) && !d.threw
    {
      NextBlock(json, c, start, blocks, k);
      var r := ParseEventBlock(json, Trim(blocks[k]));
      match r
      case Nothing =>
      case Throws =>
        d := d.(threw := true);
        return;
      case Message(event, data) =>
        if Handles(c, event) {
          d := d.(made := d.made + [Delivery(event, data)]);
        }
    }
    assert blocks[..|blocks|] == blocks;
  }

  lemma NothingYet<T>(json: string -> Option<T>, c: Callbacks)
    ensures OfText(json, c, "") == Delivered([], false) && Rest(SplitBlocks("")) == ""
  {
    assert Complete([""]) == [];
  }

  // ----- when the cuts matter

  /** What the first `j` complete blocks of a text deliver. */
  function AfterBlocks<T>(json: string -> Option<T>, c: Callbacks, text: string, j: nat): Delivered<T>
    requires j <= |Complete(SplitBlocks(text))|
  {
    DeliverAll(json, c, Delivered([], false), Complete(SplitBlocks(text))[..j])
  }

  lemma AllBlocks<T>(json: string -> Option<T>, c: Callbacks, text: string)
    ensures AfterBlocks(json, c, text, |Complete(SplitBlocks(text))|) == OfText(json, c, text)
  {
    var blocks := Complete(SplitBlocks(text));
    assert blocks[..|blocks|] == blocks;
  }

  /** The complete blocks of the beginning of a text are the first ones of the text. */
  lemma PrefixBlocks<T>(json: string -> Option<T>, c: Callbacks, a: string, b: string)
    ensures var j := |Complete(SplitBlocks(a))|;
      j <= |Complete(SplitBlocks(a + b))| && OfText(json, c, a) == AfterBlocks(json, c, a + b, j)
  {
    hide SplitBlocks, DeliverAll;
    SplitResumes(a, b);
    var front, more := Complete(SplitBlocks(a)), SplitBlocks(Rest(SplitBlocks(a)) + b);
    assert Complete(front + more) == front + Complete(more);
    assert Complete(SplitBlocks(a + b))[..|front|] == front;
  }

  /** The text up to the end of its block number `j`. */
  function UpTo(s: string, j: nat): (p: string)
    requires j < |SplitBlocks(s)|
    ensures p <= s && (j > 0 ==> |p| >= 2)
  {
    if j == 0 then ""
    else if s[0] == '\n' && s[1] == '\n' then s[..2] + UpTo(s[2..], j - 1)
    else [s[0]] + UpTo(s[1..], j)
  }

  lemma {:induction false} UpToBlocks(s: string, j: nat)
    requires j < |SplitBlocks(s)|
    ensures SplitBlocks(UpTo(s, j)) == SplitBlocks(s)[..j] + [""]
  {
    hide SplitBlocks;
    var p := UpTo(s, j);
    SplitHead(s);
    SplitHead(p);
    if j == 0 {
      assert SplitBlocks(s)[..0] == [];
    } else if s[0] == '\n' && s[1] == '\n' {
      UpToBlocks(s[2..], j - 1);
      assert p[2..] == UpTo(s[2..], j - 1);
      assert ([""] + SplitBlocks(s[2..]))[..j] == [""] + SplitBlocks(s[2..])[..j - 1];
    } else {
      var r := SplitBlocks(s[1..]);
      UpToBlocks(s[1..], j);
      assert p[1..] == UpTo(s[1..], j) && p[0] == s[0] && p[1] == s[1];
      assert r[..j] + [""] == [r[0]] + (r[1..j] + [""]);
      assert ([[s[0]] + r[0]] + r[1..])[..j] == [[s[0]] + r[0]] + r[1..j];
    }
  }

  /** A reader that sees the first `j` blocks and the rest as separate chunks. */
  lemma CutAfter<T>(json: string -> Option<T>, c: Callbacks, text: string, j: nat) returns (cut: seq<string>)
    requires j <= |Complete(SplitBlocks(text))|
    ensures |cut| == 2 && Concat(cut) == text
    ensures OfText(json, c, cut[0]) == AfterBlocks(json, c, text, j)
  {
    hide DeliverAll, UpTo;
    var p := UpTo(text, j);
    UpToBlocks(text, j);
    assert Complete(SplitBlocks(p)) == Complete(SplitBlocks(text))[..j];
    cut := [p, text[|p|..]];
    ConcatTwo(p, text[|p|..]);
  }

  lemma ConcatTwo(a: string, b: string)
    ensures Concat([a]) == a && Concat([a, b]) == a + b
  {
    assert [a][..0] == [] && [a, b][..1] == [a];
  }

  /** A reader that gets the text in one piece delivers everything, one that gets two may stop between them. */
  lemma OneChunk<T>(json: string -> Option<T>, c: Callbacks, text: string, n: nat)
    requires n > 0
    ensures Received(json, c, [text], Option.Some(n)) == OfText(json, c, text)
  {
    hide OfText, Concat;
    NothingYet(json, c);
    StartsOpen(json, c, [text], n);
    ConcatTwo(text, "");
    assert [text][..1] == [text];
  }

  lemma TwoChunks<T>(json: string -> Option<T>, c: Callbacks, cut: seq<string>, n: nat)
    requires n > 0 && |cut| == 2 && |OfText(json, c, cut[0]).made| >= n
    ensures Received(json, c, cut, Option.Some(n)) == OfText(json, c, cut[0])
  {
    hide OfText, Concat;
    StartsOpen(json, c, cut, n);
    ConcatTwo(cut[0], cut[1]);
    assert cut[..1] == [cut[0]];
  }

  lemma StartsOpen<T>(json: string -> Option<T>, c: Callbacks, chunks: seq<string>, n: nat)
    requires n > 0 && chunks != []
    ensures ReadCount(json, c, chunks, Option.Some(n), 0) == ReadCount(json, c, chunks, Option.Some(n), 1)
  {
    hide OfText;
    NothingYet(json, c);
    assert chunks[..0] == [];
  }

  lemma {:induction false} ConcatSplit(chunks: seq<string>, k: nat)
    requires k <= |chunks|
    ensures Concat(chunks) == Concat(chunks[..k]) + Concat(chunks[k..])
    decreases |chunks| - k
  {
    if k == |chunks| {
      assert chunks[..k] == chunks && chunks[k..] == [];
    } else {
      var front, last := chunks[..|chunks| - 1], chunks[|chunks| - 1];
      ConcatSplit(front, k);
      assert chunks[k..][..|chunks[k..]| - 1] == front[k..] && front[..k] == chunks[..k];
      assert chunks[k..][|chunks[k..]| - 1] == last;
    }
  }

  /** Once `n` callbacks have been made, no later complete block delivers or throws. */
  ghost predicate Quiet<T>(json: string -> Option<T>, c: Callbacks, text: string, n: nat) {
    forall j: nat :: j <= |Complete(SplitBlocks(text))| && |AfterBlocks(json, c, text, j).made| >= n ==>
      AfterBlocks(json, c, text, j) == OfText(json, c, text)
  }

  /** Every cut of the text into chunks delivers the same. */
  ghost predicate CutFree<T>(json: string -> Option<T>, c: Callbacks, text: string, n: nat) {
    forall a, b :: Concat(a) == text && Concat(b) == text ==>
        Received(json, c, a, Option.Some(n)) == Received(json, c, b, Option.Some(n))
  }

  /**
   * What any cut delivers is what some number of complete blocks deliver; it is less than everything only after a
   * close.
   */
  lemma ReceivedBlocks<T>(json: string -> Option<T>, c: Callbacks, chunks: seq<string>, n: nat) returns (j: nat)
    requires n > 0
    ensures var text, d := Concat(chunks), Received(json, c, chunks, Option.Some(n));
      && j <= |Complete(SplitBlocks(text))| && d == AfterBlocks(json, c, text, j)
      && (|d.made| >= n || d == OfText(json, c, text))
  {
    hide OfText, AfterBlocks, SplitBlocks, Complete, Concat;
    var read := ReadCount(json, c, chunks, Option.Some(n), 0);
    ConcatSplit(chunks, read);
    PrefixBlocks(json, c, Concat(chunks[..read]), Concat(chunks[read..]));
    WholeText(json, c, chunks, Option.Some(n));
    j := |Complete(SplitBlocks(Concat(chunks[..read])))|;
  }

  /**
   * When callback number `n` closes the connection, the deliveries are the same for every cut of the text into chunks
   * exactly when no complete block after that callback delivers or throws.
   */
  lemma CutFreeExactly<T>(json: string -> Option<T>, c: Callbacks, text: string, n: nat)
    requires n > 0
    ensures CutFree(json, c, text, n) <==> Quiet(json, c, text, n)
  {
    hide OfText, AfterBlocks, SplitBlocks, Complete, Concat, Received;
    if Quiet(json, c, text, n) {
      forall a | Concat(a) == text ensures Received(json, c, a, Option.Some(n)) == OfText(json, c, text) {
        var j := ReceivedBlocks(json, c, a, n);
      }
    }
    if CutFree(json, c, text, n) {
      forall j: nat | j <= |Complete(SplitBlocks(text))| && |AfterBlocks(json, c, text, j).made| >= n
        ensures AfterBlocks(json, c, text, j) == OfText(json, c, text)
      {
        var cut := CutAfter(json, c, text, j);
        TwoChunks(json, c, cut, n);
        OneChunk(json, c, text, n);
        assert Concat([text]) == text by { ConcatTwo(text, ""); }
      }
    }
  }

  /** Every cut of the text makes the same callbacks. */
  ghost predicate SameCallbacks<T>(json: string -> Option<T>, c: Callbacks, text: string, n: nat) {
    forall a, b :: Concat(a) == text && Concat(b) == text ==>
      Notices(Option.Some(n), Received(json, c, a, Option.Some(n))) ==
          Notices(Option.Some(n), Received(json, c, b, Option.Some(n)))
  }

  lemma {:induction false} MadeGrows<T>(json: string -> Option<T>, c: Callbacks, d: Delivered<T>, blocks: seq<string>,
                                        j: nat)
    requires j <= |blocks|
    ensures DeliverAll(json, c, d, blocks[..j]).made <= DeliverAll(json, c, d, blocks).made
    decreases |blocks|
  {
    hide Deliver;
    if j == |blocks| {
      assert blocks[..j] == blocks;
    } else {
      var front := blocks[..|blocks| - 1];
      MadeGrows(json, c, d, front, j);
      assert front[..j] == blocks[..j];
      BlockMakes(json, c, DeliverAll(json, c, d, front), blocks[|blocks| - 1]);
    }
  }

  /** A block makes at most one callback. */
  lemma BlockMakes<T>(json: string -> Option<T>, c: Callbacks, d: Delivered<T>, block: string)
    ensures d.made <= Deliver(json, c, d, block).made && |Deliver(json, c, d, block).made| <= |d.made| + 1
  {
    hide BlockMeaning, Handles;
  }

  /** Callback number `n` is the last one of some block. */
  lemma {:induction false} Reaching<T>(json: string -> Option<T>, c: Callbacks, d: Delivered<T>, blocks: seq<string>,
                                       n: nat)
    returns (j: nat)
    requires |d.made| <= n <= |DeliverAll(json, c, d, blocks).made|
    ensures j <= |blocks| && |DeliverAll(json, c, d, blocks[..j]).made| == n
    decreases |blocks|
  {
    hide Deliver;
    var front := blocks[..if blocks == [] then 0 else |blocks| - 1];
    if |DeliverAll(json, c, d, blocks).made| == n {
      j := |blocks|;
      assert blocks[..j] == blocks;
    } else {
      BlockMakes(json, c, DeliverAll(json, c, d, front), blocks[|blocks| - 1]);
      j := Reaching(json, c, d, front, n);
      assert front[..j] == blocks[..j];
    }
  }

  /**
   * When callback number `n` closes the connection, the subscriber notices the same for every cut of the text into
   * chunks exactly when the text holds at most `n` callbacks.
   */
  lemma SameCallbacksExactly<T>(json: string -> Option<T>, c: Callbacks, text: string, n: nat)
    requires n > 0
    ensures SameCallbacks(json, c, text, n) <==> |OfText(json, c, text).made| <= n
  {
    hide SplitBlocks, Complete, Concat, Received, DeliverAll;
    var blocks, whole := Complete(SplitBlocks(text)), OfText(json, c, text);
    AllBlocks(json, c, text);
    if |whole.made| <= n {
      forall a | Concat(a) == text
        ensures Notices(Option.Some(n), Received(json, c, a, Option.Some(n))) == Notices(Option.Some(n), whole)
      {
        var j := ReceivedBlocks(json, c, a, n);
        MadeGrows(json, c, Delivered([], false), blocks, j);
      }
    } else {
      var j := Reaching(json, c, Delivered([], false), blocks, n);
      var cut := CutAfter(json, c, text, j);
      TwoChunks(json, c, cut, n);
      OneChunk(json, c, text, n);
      assert Concat([text]) == text by { ConcatTwo(text, ""); }
    }
  }

  // ----- what the server sends

  function ToSse(event: string, data: string): string {
    "event: " + event + "\ndata: " + data + "\n\n"
  }

  /** A line of text without spaces at its ends. */
  predicate Plain(s: string) { Tight(s) && '\n' !in s }

  function Sent(events: seq<(string, string)>): string {
    if events == [] then "" else Sent(events[..|events| - 1]) + ToSse(events[|events| - 1].0, events[|events| - 1].1)
  }

  function Block(event: string, data: string): string { "event: " + event + "\ndata: " + data }

  /** A blank line starts at this index. */
  predicate BlankAt(s: string, i: nat) {
    i + 1 < |s| && s[i] == '\n' && s[i + 1] == '\n'
  }

  lemma {:induction false} NoBlankLine(s: string)
    requires (forall i :: !BlankAt(s, i)) && (s != "" ==> s[|s| - 1] != '\n')
    ensures SplitBlocks(s + "\n\n") == [s, ""]
  {
    var t := s + "\n\n";
    if s == "" {
      assert t[2..] == "" && t[0] == '\n' && t[1] == '\n';
    } else {
      assert !BlankAt(s, 0);
      assert t[1..] == s[1..] + "\n\n";
      forall i: nat ensures !BlankAt(s[1..], i) { assert !BlankAt(s, i + 1); }
      NoBlankLine(s[1..]);
      assert [s[0]] + s[1..] == s;
    }
  }

  lemma BlockHasNoBlankLine(event: string, data: string)
    requires Plain(event) && Plain(data)
    ensures var s := Block(event, data);
      (forall i :: !BlankAt(s, i)) && s[|s| - 1] != '\n' && Tight(s)
  {
    var head, tail := "event: " + event, "data: " + data;
    var s := Block(event, data);
    assert s == head + "\n" + tail;
    assert forall i :: 0 <= i < |head| ==> head[i] != '\n' by { LineOfText("event: ", event); }
    assert forall i :: 0 <= i < |tail| ==> tail[i] != '\n' by { LineOfText("data: ", data); }
    assert s[|s| - 1] == data[|data| - 1];
    assert data[|data| - 1] in data;
  }

  lemma LineOfText(a: string, b: string)
    requires '\n' !in a && '\n' !in b
    ensures forall i :: 0 <= i < |a + b| ==> (a + b)[i] != '\n'
  {
    forall i | 0 <= i < |a + b| ensures (a + b)[i] != '\n' {
      assert (a + b)[i] in a || (a + b)[i] in b;
    }
  }

  lemma BlockRead<T>(json: string -> Option<T>, event: string, data: string)
    requires Plain(event) && Plain(data) && json(data).Some?
    ensures BlockMeaning(json, Trim(Block(event, data))) == Message(event, json(data).value)
  {
    hide Trim, Split;
    var head, tail := "event: " + event, "data: " + data;
    BlockHasNoBlankLine(event, data);
    TrimTight(Block(event, data));
    assert Block(event, data) == head + ['\n'] + tail;
    LineOfText("event: ", event);
    LineOfText("data: ", data);
    SplitFirst(head, tail, '\n');
    SplitFirst(tail, "", '\n');
    HeadLine(event);
    TailLine(event, data);
    var f0 := Fields("message", "");
    assert [head, tail][..1] == [head] && [head][..0] == [];
    assert Lines(f0, [head]) == Line(f0, head);
    assert Lines(f0, [head, tail]) == Line(Line(f0, head), tail);
  }

  lemma HeadLine(event: string)
    requires Plain(event)
    ensures Line(Fields("message", ""), "event: " + event) == Fields(event, "")
  {
    hide Trim, Tight;
    TrimTight(event);
    var head := "event: " + event;
    assert head[|EVENT|..] == [' '] + event && head[..|EVENT|] == EVENT;
  }

  lemma TailLine(event: string, data: string)
    requires Plain(data)
    ensures Line(Fields(event, ""), "data: " + data) == Fields(event, data)
  {
    hide Trim, Tight;
    TrimTight(data);
    var tail := "data: " + data;
    assert tail[|DATA|..] == [' '] + data && tail[..|DATA|] == DATA;
    assert tail[0] == 'd' && !(EVENT <= tail);
    assert "" + data == data;
  }

  function Expected<T>(json: string -> Option<T>, c: Callbacks, events: seq<(string, string)>): seq<Delivery<T>>
    requires forall k :: 0 <= k < |events| ==> json(events[k].1).Some?
  {
    if events == [] then []
    else
      var e := events[|events| - 1];
      var listens := e.0 == "task_status" || (e.0 == "heartbeat" && c.heartbeat)
        || (e.0 == "hybrid_iteration" && c.hybridIteration);
      Expected(json, c, events[..|events| - 1]) + if listens then [Delivery(e.0, json(e.1).value)] else []
  }

  /** One event as the server writes it, and what it makes the subscriber do. */
  lemma OneEvent<T>(json: string -> Option<T>, c: Callbacks, event: string, data: string)
    requires Plain(event) && Plain(data) && json(data).Some?
    ensures var text := "event: " + event + "\ndata: " + data + "\n\n";
      && ToSse(event, data) == text
      && OfText(json, c, text) == Delivered(
           if event == "task_status" || (event == "heartbeat" && c.heartbeat)
              || (event == "hybrid_iteration" && c.hybridIteration)
           then [Delivery(event, json(data).value)] else [], false)
  {
    hide OfText, Plain, Handles;
    var e := (event, data);
    SentArrives(json, c, [e]);
    assert [e][..0] == [] && Sent([]) == "" && Expected(json, c, []) == [];
    assert Sent([e]) == "" + ToSse(event, data) == ToSse(event, data);
  }

  /** Everything the server sends arrives, in order and once, however the network cuts it. */
  lemma {:induction false} SentArrives<T>(json: string -> Option<T>, c: Callbacks, events: seq<(string, string)>)
    requires forall k :: 0 <= k < |events| ==> Plain(events[k].0) && Plain(events[k].1) && json(events[k].1).Some?
    ensures OfText(json, c, Sent(events)) == Delivered(Expected(json, c, events), false)
    ensures Rest(SplitBlocks(Sent(events))) == ""
  {
    hide SplitBlocks, DeliverAll, BlockMeaning, Plain, OfText, Trim;
    if events == [] {
      NothingYet(json, c);
    } else {
      var front, e := events[..|events| - 1], events[|events| - 1];
      SentArrives(json, c, front);
      BlockHasNoBlankLine(e.0, e.1);
      NoBlankLine(Block(e.0, e.1));
      assert ToSse(e.0, e.1) == Block(e.0, e.1) + "\n\n";
      TextGrows(json, c, Sent(front), ToSse(e.0, e.1));
      assert "" + ToSse(e.0, e.1) == ToSse(e.0, e.1);
      assert Complete([Block(e.0, e.1), ""]) == [Block(e.0, e.1)];
      BlockRead(json, e.0, e.1);
      OneDelivery(json, c, Delivered(Expected(json, c, front), false), Block(e.0, e.1));
    }
  }

  lemma OneDelivery<T>(json: string -> Option<T>, c: Callbacks, d: Delivered<T>, block: string)
    ensures DeliverAll(json, c, d, [block]) == Deliver(json, c, d, block)
  {
    assert [block][..0] == [];
  }

  /** Data that are their own JSON. */
  function AsIs(): string -> Option<string> { s => Option.Some(s) }

  /**
   * One text, two cuts: a subscriber that closes on the first status event still gets the second one if both come in
   * one chunk, and does not get it if they come in two.
   */
  lemma ClosedTooLate()
    ensures var c, one, two := Callbacks(false, false), ToSse("task_status", "1"), ToSse("task_status", "2");
      && Received(AsIs(), c, [one + two], Option.Some(1)).made ==
          [Delivery("task_status", "1"), Delivery("task_status", "2")]
      && Received(AsIs(), c, [one, two], Option.Some(1)).made == [Delivery("task_status", "1")]
  {
    hide OfText, Received, ToSse;
    var c, a, b := Callbacks(false, false), ("task_status", "1"), ("task_status", "2");
    var one, two := ToSse(a.0, a.1), ToSse(b.0, b.1);
    assert [a, b][..1] == [a] && [a][..0] == [];
    assert Sent([a]) == "" + one && Sent([a, b]) == Sent([a]) + two;
    assert "" + one == one;
    assert Plain("task_status") && Plain("1") && Plain("2");
    SentArrives(AsIs(), c, [a]);
    SentArrives(AsIs(), c, [a, b]);
    assert Expected(AsIs(), c, []) == [];
    assert Expected(AsIs(), c, [a]) == [Delivery("task_status", "1")];
    assert Expected(AsIs(), c, [a, b]) == [Delivery("task_status", "1")] + [Delivery("task_status", "2")];
    OneChunk(AsIs(), c, one + two, 1);
    TwoChunks(AsIs(), c, [one, two], 1);
  }
}
