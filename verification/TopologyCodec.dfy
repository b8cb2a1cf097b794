/** Wire form of a board topology: length-prefixed lists and strings, parsed with a moving cursor. */
module TopologyCodec {
  import opened Wrappers
  import opened LittleEndian
  import opened CanonicalLists
  import opened Topology

  /** The endpoint table, the endpoint reserved for discovery itself, and UTF-8 validity. */
  datatype Schema = Schema(isEndpoint: nat -> bool, discovery: nat, utf8: Text -> bool)

  datatype Problem =
    | BoardCount | SenderId | EndpointCount | EndpointWord | BadEndpoint
    | SourceCount | SourceId | ConnectionCount | ConnectionId | TrailingBytes

  /** A parsed value and the cursor after it, or the reason there is none. */
  datatype Parsed<T> = Parsed(value: T, next: nat) | Refused(problem: Problem)

  // -------------------------------------------------------------------------
  // Encoding
  // -------------------------------------------------------------------------

  function EncodeText(t: Text): Bytes
  {
    Le(|t|, 4) + t
  }

  function EncodeTexts(ts: seq<Text>): Bytes
  {
    if ts == [] then [] else EncodeText(ts[0]) + EncodeTexts(ts[1..])
  }

  function EncodeEndpoints(es: seq<nat>): Bytes
  {
    if es == [] then [] else Le(es[0], 4) + EncodeEndpoints(es[1..])
  }

  function EncodeBoard(b: Board): Bytes
  {
    EncodeText(b.sender)
    + (Le(|b.endpoints|, 4) + EncodeEndpoints(b.endpoints))
    + (Le(|b.sources|, 4) + EncodeTexts(b.sources))
    + (Le(|b.connections|, 4) + EncodeTexts(b.connections))
  }

  function EncodeBoards(boards: seq<Board>): Bytes
  {
    if boards == [] then [] else EncodeBoard(boards[0]) + EncodeBoards(boards[1..])
  }

  predicate AllFit(ts: seq<Text>)
  {
    forall t :: t in ts ==> |t| < TWO_32
  }

  /** Names of 2^32 bytes or more cannot be encoded. */
  function Encode(boards: seq<Board>): Option<Bytes>
  {
    if forall b :: b in boards ==> |b.sender| < TWO_32 && AllFit(b.sources) && AllFit(b.connections)
    then Some(Le(|boards|, 4) + EncodeBoards(boards))
    else None
  }

  /** A list of boards can be encoded exactly if the length of every name in it fits four bytes. */
  lemma {:induction false} EncodesExactly(boards: seq<Board>)
    ensures Encode(boards).Some? <==>
              forall b :: b in boards ==>
                && |b.sender| < 0x1_0000_0000
                && (forall t :: t in b.sources ==> |t| < 0x1_0000_0000)
                && (forall t :: t in b.connections ==> |t| < 0x1_0000_0000)
  {
  }

  /** Lists are sent one element after the other, without anything in between. */
  lemma {:induction false} ListsJoin(ts: seq<Text>, us: seq<Text>, es: seq<nat>, fs: seq<nat>)
    ensures EncodeTexts(ts + us) == EncodeTexts(ts) + EncodeTexts(us)
    ensures EncodeEndpoints(es + fs) == EncodeEndpoints(es) + EncodeEndpoints(fs)
    decreases |ts| + |es|
  {
    hide EncodeText, Le;
    if |ts| > 0 {
      assert (ts + us)[1..] == ts[1..] + us;
      ListsJoin(ts[1..], us, es, fs);
    } else if |es| > 0 {
      assert ts + us == us;
      assert (es + fs)[1..] == es[1..] + fs;
      ListsJoin(ts, us, es[1..], fs);
    } else {
      assert ts + us == us && es + fs == fs;
    }
  }

  /**
    The layout of a board: four length-prefixed parts, each length and each endpoint in four bytes. Shown on lists of
    one element; longer ones are joined from such.
   */
  lemma {:induction false} BoardLayout(sender: Text, endpoint: nat, source: Text, connection: Text)
    ensures EncodeBoard(Board(sender, [endpoint], [source], [connection]))
            == Le(|sender|, 4) + sender + Le(1, 4) + Le(endpoint, 4) + Le(1, 4) + Le(|source|, 4) + source
               + Le(1, 4) + Le(|connection|, 4) + connection
    ensures EncodeTexts([]) == [] && EncodeEndpoints([]) == []
  {
    hide Le;
    assert [source][1..] == [] && [connection][1..] == [] && [endpoint][1..] == [];
    assert EncodeTexts([source]) == Le(|source|, 4) + source + [];
    assert EncodeTexts([connection]) == Le(|connection|, 4) + connection + [];
    assert EncodeEndpoints([endpoint]) == Le(endpoint, 4) + [];
  }

  // -------------------------------------------------------------------------
  // Decoding
  // -------------------------------------------------------------------------

  function DecodeCount(payload: Bytes, cursor: nat, problem: Problem): (r: Parsed<nat>)
    requires cursor <= |payload|
    ensures r.Parsed? ==> r.next == cursor + 4 <= |payload|
  {
    if |payload| - cursor < 4 then Refused(problem) else Parsed(ReadLe(payload, cursor, 4), cursor + 4)
  }

  function DecodeText(sch: Schema, payload: Bytes, cursor: nat, problem: Problem): (r: Parsed<Text>)
    requires cursor <= |payload|
    ensures r.Parsed? ==> cursor + 4 + |r.value| == r.next <= |payload|
  {
    match DecodeCount(payload, cursor, problem)
    case Refused(e) => Refused(e)
    case Parsed(len, lenNext) =>
      if |payload| - lenNext < len then Refused(problem)
      else
        var raw := payload[lenNext..lenNext + len];
        if sch.utf8(raw) then Parsed(raw, lenNext + len) else Refused(problem)
  }

  /** Appends `count` strings to `acc`; empty ones are consumed but dropped. */
  function DecodeTexts(sch: Schema, payload: Bytes, cursor: nat, count: nat, acc: seq<Text>, problem: Problem)
    : (r: Parsed<seq<Text>>)
    requires cursor <= |payload|
    ensures r.Parsed? ==> cursor + 4 * count <= r.next <= |payload|
    decreases count
  {
    if count == 0 then Parsed(acc, cursor)
    else match DecodeText(sch, payload, cursor, problem)
      case Refused(e) => Refused(e)
      case Parsed(t, next) =>
        DecodeTexts(sch, payload, next, count - 1, if |t| == 0 then acc else acc + [t], problem)
  }

  /** Appends `count` endpoint words to `acc`; the discovery endpoint is consumed but dropped. */
  function DecodeEndpoints(sch: Schema, payload: Bytes, cursor: nat, count: nat, acc: seq<nat>): (r: Parsed<seq<nat>>)
    requires cursor <= |payload|
    ensures r.Parsed? ==> r.next == cursor + 4 * count <= |payload|
    decreases count
  {
    if count == 0 then Parsed(acc, cursor)
    else match DecodeCount(payload, cursor, EndpointWord)
      case Refused(e) => Refused(e)
      case Parsed(word, next) =>
        if !sch.isEndpoint(word) then Refused(BadEndpoint)
        else DecodeEndpoints(sch, payload, next, count - 1, if word == sch.discovery then acc else acc + [word])
  }

  function DecodeTextList(sch: Schema, payload: Bytes, cursor: nat, countProblem: Problem, problem: Problem):
      (r: Parsed<seq<Text>>)
    requires cursor <= |payload|
    ensures r.Parsed? ==> cursor + 4 <= r.next <= |payload|
  {
    match DecodeCount(payload, cursor, countProblem)
    case Refused(e) => Refused(e)
    case Parsed(n, nNext) => DecodeTexts(sch, payload, nNext, n, [], problem)
  }

  function DecodeEndpointList(sch: Schema, payload: Bytes, cursor: nat): (r: Parsed<seq<nat>>)
    requires cursor <= |payload|
    ensures r.Parsed? ==> cursor + 4 <= r.next <= |payload|
  {
    match DecodeCount(payload, cursor, EndpointCount)
    case Refused(e) => Refused(e)
    case Parsed(n, nNext) => DecodeEndpoints(sch, payload, nNext, n, [])
  }

  function DecodeBoard(sch: Schema, payload: Bytes, cursor: nat): (r: Parsed<Board>)
    requires cursor <= |payload|
    ensures r.Parsed? ==> cursor + 16 <= r.next <= |payload|
  {
    match DecodeText(sch, payload, cursor, SenderId)
    case Refused(e) => Refused(e)
    case Parsed(sender, senderNext) =>
      match DecodeEndpointList(sch, payload, senderNext)
      case Refused(e) => Refused(e)
      case Parsed(endpoints, endpointsNext) =>
        match DecodeTextList(sch, payload, endpointsNext, SourceCount, SourceId)
        case Refused(e) => Refused(e)
        case Parsed(sources, sourcesNext) =>
          match DecodeTextList(sch, payload, sourcesNext, ConnectionCount, ConnectionId)
          case Refused(e) => Refused(e)
          case Parsed(connections, connectionsNext) =>
            Parsed(Board(sender, endpoints, sources, connections), connectionsNext)
  }

  /** On success the cursor has moved past `count` boards of at least 16 bytes each and not past the end. */
  function DecodeBoards(sch: Schema, payload: Bytes, cursor: nat, count: nat, acc: seq<Board>): (r: Parsed<seq<Board>>)
    requires cursor <= |payload|
    ensures r.Parsed? ==> cursor + 16 * count <= r.next <= |payload| && |r.value| == |acc| + count
    decreases count
  {
    if count == 0 then Parsed(acc, cursor)
    else match DecodeBoard(sch, payload, cursor)
      case Refused(e) => Refused(e)
      case Parsed(b, next) => DecodeBoards(sch, payload, next, count - 1, acc + [b])
  }

  function Decode(sch: Schema, payload: Bytes): Result<seq<Board>, Problem>
  {
    match DecodeCount(payload, 0, BoardCount)
    case Refused(e) => Err(e)
    case Parsed(n, nNext) =>
      match DecodeBoards(sch, payload, nNext, n, [])
      case Refused(e) => Err(e)
      case Parsed(boards, boardsNext) =>
        if boardsNext != |payload| then Err(TrailingBytes) else Ok(SortBoards(CleanAll(boards)))
  }

  // -------------------------------------------------------------------------
  // What survives the trip
  // -------------------------------------------------------------------------

  function NonEmpty(ts: seq<Text>): seq<Text>
  {
    if ts == [] then [] else (if ts[0] == [] then [] else [ts[0]]) + NonEmpty(ts[1..])
  }

  function WithoutDiscovery(sch: Schema, es: seq<nat>): seq<nat>
  {
    if es == [] then [] else (if es[0] == sch.discovery then [] else [es[0]]) + WithoutDiscovery(sch, es[1..])
  }

  function Stripped(sch: Schema, b: Board): Board
  {
    Board(b.sender, WithoutDiscovery(sch, b.endpoints), NonEmpty(b.sources), NonEmpty(b.connections))
  }

  function StrippedAll(sch: Schema, boards: seq<Board>): seq<Board>
  {
    if |boards| == 0 then [] else [Stripped(sch, boards[0])] + StrippedAll(sch, boards[1..])
  }

  predicate GoodText(sch: Schema, t: Text)
  {
    sch.utf8(t) && |t| < TWO_32
  }

  ghost predicate AllGood(sch: Schema, ts: seq<Text>)
  {
    forall i :: 0 <= i < |ts| ==> GoodText(sch, ts[i])
  }

  predicate GoodEndpoint(sch: Schema, e: nat)
  {
    e < TWO_32 && sch.isEndpoint(e)
  }

  /** Fields a board can have in the program: valid text, known endpoints, 32-bit counts. */
  ghost predicate Encodable(sch: Schema, b: Board)
  {
    && |b.endpoints| < TWO_32 && |b.sources| < TWO_32 && |b.connections| < TWO_32
    && GoodText(sch, b.sender)
    && (forall i :: 0 <= i < |b.endpoints| ==> GoodEndpoint(sch, b.endpoints[i]))
    && AllGood(sch, b.sources) && AllGood(sch, b.connections)
  }

  lemma {:induction false} CountRoundTrip(payload: Bytes, at: nat, n: nat, problem: Problem)
    requires Holds(payload, at, Le(n, 4)) && n < TWO_32
    ensures DecodeCount(payload, at, problem) == Parsed(n, at + 4)
  {
    Widths();
    LeRoundTrip(payload, at, n, 4);
  }

  // Each lemma below names the cursor `end` behind the part it reads: the parts of a layout then chain
  // by equality of names.

  lemma {:induction false} TextRoundTrip(sch: Schema, payload: Bytes, at: nat, t: Text, end: nat, problem: Problem)
    requires Holds(payload, at, EncodeText(t)) && GoodText(sch, t) && end == at + |EncodeText(t)|
    ensures DecodeText(sch, payload, at, problem) == Parsed(t, end)
  {
    HoldsSplit(payload, at, Le(|t|, 4), t);
    CountRoundTrip(payload, at, |t|, problem);
    assert payload[at + 4..at + 4 + |t|] == t;
  }

  /** From `at`, the parser appends the names `ts` to `acc` and stops at `end`. */
  ghost predicate ReadsTexts(
    sch: Schema, payload: Bytes, at: nat, ts: seq<Text>, end: nat, acc: seq<Text>, problem: Problem)
  {
    at <= |payload| && DecodeTexts(sch, payload, at, |ts|, acc, problem) == Parsed(acc + NonEmpty(ts), end)
  }

  lemma {:induction false} TextsStep(
    sch: Schema, payload: Bytes, at: nat, next: nat, end: nat, ts: seq<Text>, acc: seq<Text>, problem: Problem)
    requires at <= |payload| && ts != [] && DecodeText(sch, payload, at, problem) == Parsed(ts[0], next)
    requires ReadsTexts(sch, payload, next, ts[1..], end, if |ts[0]| == 0 then acc else acc + [ts[0]], problem)
    ensures ReadsTexts(sch, payload, at, ts, end, acc, problem)
  {
    var rest := NonEmpty(ts[1..]);
    assert (acc + [ts[0]]) + rest == acc + ([ts[0]] + rest) && [] + rest == rest;
  }

  lemma {:induction false} TextsRoundTrip(
    sch: Schema, payload: Bytes, at: nat, ts: seq<Text>, end: nat, acc: seq<Text>, problem: Problem)
    requires Holds(payload, at, EncodeTexts(ts)) && AllGood(sch, ts) && end == at + |EncodeTexts(ts)|
    ensures ReadsTexts(sch, payload, at, ts, end, acc, problem)
    decreases |ts|
  {
    if ts == [] {
      assert acc + [] == acc;
    } else {
      var head, tail := EncodeText(ts[0]), EncodeTexts(ts[1..]);
      HoldsSplit(payload, at, head, tail);
      var next := at + |head|;
      TextRoundTrip(sch, payload, at, ts[0], next, problem);
      TextsRoundTrip(sch, payload, next, ts[1..], end, if |ts[0]| == 0 then acc else acc + [ts[0]], problem);
      TextsStep(sch, payload, at, next, end, ts, acc, problem);
    }
  }

  ghost predicate ReadsEndpoints(sch: Schema, payload: Bytes, at: nat, es: seq<nat>, end: nat, acc: seq<nat>)
  {
    at <= |payload| && DecodeEndpoints(sch, payload, at, |es|, acc) == Parsed(acc + WithoutDiscovery(sch, es), end)
  }

  lemma {:induction false} EndpointsStep(
    sch: Schema, payload: Bytes, at: nat, end: nat, es: seq<nat>, acc: seq<nat>)
    requires es != [] && sch.isEndpoint(es[0]) && at + 4 <= |payload|
    requires DecodeCount(payload, at, EndpointWord) == Parsed(es[0], at + 4)
    requires ReadsEndpoints(sch, payload, at + 4, es[1..], end, if es[0] == sch.discovery then acc else acc + [es[0]])
    ensures ReadsEndpoints(sch, payload, at, es, end, acc)
  {
    var rest := WithoutDiscovery(sch, es[1..]);
    assert (acc + [es[0]]) + rest == acc + ([es[0]] + rest) && [] + rest == rest;
  }

  lemma {:induction false} EndpointsRoundTrip(sch: Schema, payload: Bytes, at: nat, es: seq<nat>, end: nat,
      acc: seq<nat>)
    requires Holds(payload, at, EncodeEndpoints(es)) && end == at + |EncodeEndpoints(es)|
    requires forall i :: 0 <= i < |es| ==> GoodEndpoint(sch, es[i])
    ensures ReadsEndpoints(sch, payload, at, es, end, acc)
    decreases |es|
  {
    if es == [] {
      assert acc + [] == acc;
    } else {
      HoldsSplit(payload, at, Le(es[0], 4), EncodeEndpoints(es[1..]));
      CountRoundTrip(payload, at, es[0], EndpointWord);
      EndpointsRoundTrip(sch, payload, at + 4, es[1..], end, if es[0] == sch.discovery then acc else acc + [es[0]]);
      EndpointsStep(sch, payload, at, end, es, acc);
    }
  }

  ghost predicate ReadsTextList(
    sch: Schema, payload: Bytes, at: nat, ts: seq<Text>, end: nat, countProblem: Problem, problem: Problem)
  {
    at <= |payload| && DecodeTextList(sch, payload, at, countProblem, problem) == Parsed(NonEmpty(ts), end)
  }

  ghost predicate ReadsEndpointList(sch: Schema, payload: Bytes, at: nat, es: seq<nat>, end: nat)
  {
    at <= |payload| && DecodeEndpointList(sch, payload, at) == Parsed(WithoutDiscovery(sch, es), end)
  }

  lemma {:induction false} TextListStep(
    sch: Schema, payload: Bytes, at: nat, ts: seq<Text>, end: nat, countProblem: Problem, problem: Problem)
    requires at <= |payload| && DecodeCount(payload, at, countProblem) == Parsed(|ts|, at + 4)
    requires ReadsTexts(sch, payload, at + 4, ts, end, [], problem)
    ensures ReadsTextList(sch, payload, at, ts, end, countProblem, problem)
  {
    assert [] + NonEmpty(ts) == NonEmpty(ts);
  }

  lemma {:induction false} TextListRoundTrip(
    sch: Schema, payload: Bytes, at: nat, ts: seq<Text>, end: nat, countProblem: Problem, problem: Problem)
    requires Holds(payload, at, Le(|ts|, 4) + EncodeTexts(ts)) && |ts| < TWO_32 && AllGood(sch, ts)
    requires end == at + |Le(|ts|, 4) + EncodeTexts(ts)|
    ensures ReadsTextList(sch, payload, at, ts, end, countProblem, problem)
  {
    HoldsSplit(payload, at, Le(|ts|, 4), EncodeTexts(ts));
    CountRoundTrip(payload, at, |ts|, countProblem);
    TextsRoundTrip(sch, payload, at + 4, ts, end, [], problem);
    TextListStep(sch, payload, at, ts, end, countProblem, problem);
  }

  lemma {:induction false} EndpointListRoundTrip(sch: Schema, payload: Bytes, at: nat, es: seq<nat>, end: nat)
    requires Holds(payload, at, Le(|es|, 4) + EncodeEndpoints(es)) && |es| < TWO_32
    requires forall i :: 0 <= i < |es| ==> GoodEndpoint(sch, es[i])
    requires end == at + |Le(|es|, 4) + EncodeEndpoints(es)|
    ensures ReadsEndpointList(sch, payload, at, es, end)
  {
    HoldsSplit(payload, at, Le(|es|, 4), EncodeEndpoints(es));
    CountRoundTrip(payload, at, |es|, EndpointCount);
    EndpointsRoundTrip(sch, payload, at + 4, es, end, []);
    assert [] + WithoutDiscovery(sch, es) == WithoutDiscovery(sch, es);
  }

  ghost predicate ReadsBoard(sch: Schema, payload: Bytes, at: nat, board: Board, end: nat)
  {
    at <= |payload| && DecodeBoard(sch, payload, at) == Parsed(Stripped(sch, board), end)
  }

  /** The four parts of a board, read one after the other. */
  lemma {:induction false} BoardStep(sch: Schema, payload: Bytes, at: nat, a: nat, b: nat, c: nat, end: nat,
      board: Board)
    requires at <= |payload| && DecodeText(sch, payload, at, SenderId) == Parsed(board.sender, a)
    requires ReadsEndpointList(sch, payload, a, board.endpoints, b)
    requires ReadsTextList(sch, payload, b, board.sources, c, SourceCount, SourceId)
    requires ReadsTextList(sch, payload, c, board.connections, end, ConnectionCount, ConnectionId)
    ensures ReadsBoard(sch, payload, at, board, end)
  {
  }

  lemma {:induction false} BoardRoundTrip(sch: Schema, payload: Bytes, at: nat, b: Board, end: nat)
    requires Holds(payload, at, EncodeBoard(b)) && Encodable(sch, b) && end == at + |EncodeBoard(b)|
    ensures ReadsBoard(sch, payload, at, b, end)
  {
    var sender := EncodeText(b.sender);
    var endpoints := Le(|b.endpoints|, 4) + EncodeEndpoints(b.endpoints);
    var sources := Le(|b.sources|, 4) + EncodeTexts(b.sources);
    var connections := Le(|b.connections|, 4) + EncodeTexts(b.connections);
    var at1 := at + |sender|;
    var at2 := at1 + |endpoints|;
    var at3 := at2 + |sources|;
    HoldsSplit4(payload, at, sender, endpoints, sources, connections);
    TextRoundTrip(sch, payload, at, b.sender, at1, SenderId);
    EndpointListRoundTrip(sch, payload, at1, b.endpoints, at2);
    TextListRoundTrip(sch, payload, at2, b.sources, at3, SourceCount, SourceId);
    TextListRoundTrip(sch, payload, at3, b.connections, end, ConnectionCount, ConnectionId);
    BoardStep(sch, payload, at, at1, at2, at3, end, b);
  }

  /** From `at`, the parser appends the boards encoded there to `acc` and stops at `end`. */
  ghost predicate ReadsBoards(sch: Schema, payload: Bytes, at: nat, boards: seq<Board>, end: nat, acc: seq<Board>)
  {
    at <= |payload| && DecodeBoards(sch, payload, at, |boards|, acc) == Parsed(acc + StrippedAll(sch, boards), end)
  }

  lemma {:induction false} BoardsStep(
    sch: Schema, payload: Bytes, at: nat, next: nat, end: nat, boards: seq<Board>, acc: seq<Board>)
    requires boards != [] && ReadsBoard(sch, payload, at, boards[0], next)
    requires ReadsBoards(sch, payload, next, boards[1..], end, acc + [Stripped(sch, boards[0])])
    ensures ReadsBoards(sch, payload, at, boards, end, acc)
  {
    hide DecodeBoard;
    var head, rest := [Stripped(sch, boards[0])], StrippedAll(sch, boards[1..]);
    assert (acc + head) + rest == acc + (head + rest);
  }

  lemma {:induction false} BoardsRoundTrip(
    sch: Schema, payload: Bytes, at: nat, boards: seq<Board>, end: nat, acc: seq<Board>)
    requires Holds(payload, at, EncodeBoards(boards)) && end == at + |EncodeBoards(boards)|
    requires forall i :: 0 <= i < |boards| ==> Encodable(sch, boards[i])
    ensures ReadsBoards(sch, payload, at, boards, end, acc)
    decreases |boards|
  {
    hide Encodable, EncodeBoard, DecodeBoard, Stripped;
    if boards == [] {
      assert acc + [] == acc;
    } else {
      var head, tail := EncodeBoard(boards[0]), EncodeBoards(boards[1..]);
      HoldsSplit(payload, at, head, tail);
      var next := at + |head|;
      BoardRoundTrip(sch, payload, at, boards[0], next);
      BoardsRoundTrip(sch, payload, next, boards[1..], end, acc + [Stripped(sch, boards[0])]);
      BoardsStep(sch, payload, at, next, end, boards, acc);
    }
  }

  // -------------------------------------------------------------------------
  // Normal forms survive the trip
  // -------------------------------------------------------------------------

  lemma {:induction false} NonEmptyElement(ts: seq<Text>, t: Text)
    ensures t in NonEmpty(ts) <==> t in ts && t != []
  {
    if ts != [] {
      NonEmptyElement(ts[1..], t);
    }
  }

  lemma {:induction false} WithoutDiscoveryElement(sch: Schema, es: seq<nat>, e: nat)
    ensures e in WithoutDiscovery(sch, es) <==> e in es && e != sch.discovery
  {
    if es != [] {
      WithoutDiscoveryElement(sch, es[1..], e);
    }
  }

  lemma {:induction false} NonEmptyAscending(ts: seq<Text>)
    requires Ascending(TextLess, ts)
    ensures Ascending(TextLess, NonEmpty(ts))
  {
    if ts != [] {
      var tail := NonEmpty(ts[1..]);
      NonEmptyAscending(ts[1..]);
      forall i | 0 <= i < |tail| ensures TextLess(ts[0], tail[i]) {
        NonEmptyElement(ts[1..], tail[i]);
      }
    }
  }

  lemma {:induction false} WithoutDiscoveryAscending(sch: Schema, es: seq<nat>)
    requires Ascending(NatLess, es)
    ensures Ascending(NatLess, WithoutDiscovery(sch, es))
  {
    if es != [] {
      var tail := WithoutDiscovery(sch, es[1..]);
      WithoutDiscoveryAscending(sch, es[1..]);
      forall i | 0 <= i < |tail| ensures NatLess(es[0], tail[i]) {
        WithoutDiscoveryElement(sch, es[1..], tail[i]);
      }
    }
  }

  lemma {:induction false} NonEmptyUnchanged(ts: seq<Text>)
    ensures NonEmpty(ts) == ts <==> [] !in ts
  {
    if [] in ts {
      NonEmptyElement(ts, []);
    } else if ts != [] {
      NonEmptyUnchanged(ts[1..]);
    }
  }

  lemma {:induction false} WithoutDiscoveryUnchanged(sch: Schema, es: seq<nat>)
    ensures WithoutDiscovery(sch, es) == es <==> sch.discovery !in es
  {
    if sch.discovery in es {
      WithoutDiscoveryElement(sch, es, sch.discovery);
    } else if es != [] {
      WithoutDiscoveryUnchanged(sch, es[1..]);
    }
  }

  /** A board whose lists are already sorted and free of itself is clean. */
  lemma {:induction false} SortedIsClean(b: Board)
    requires Ascending(NatLess, b.endpoints) && Ascending(TextLess, b.sources) && Ascending(TextLess, b.connections)
    requires b.sender !in b.connections
    ensures Clean(b) == b
  {
    TextOrder();
    CleanMeaning(b);
    AscendingUnique(NatLess, Clean(b).endpoints, b.endpoints);
    AscendingUnique(TextLess, Clean(b).sources, b.sources);
    AscendingUnique(TextLess, Clean(b).connections, b.connections);
  }

  lemma {:induction false} StrippedStaysClean(sch: Schema, b: Board)
    requires Clean(b) == b
    ensures Clean(Stripped(sch, b)) == Stripped(sch, b)
  {
    CleanMeaning(b);
    WithoutDiscoveryAscending(sch, b.endpoints);
    NonEmptyAscending(b.sources);
    NonEmptyAscending(b.connections);
    NonEmptyElement(b.connections, b.sender);
    SortedIsClean(Stripped(sch, b));
  }

  lemma {:induction false} StrippedAllAt(sch: Schema, boards: seq<Board>)
    ensures var r := StrippedAll(sch, boards);
            |r| == |boards| && forall i :: 0 <= i < |boards| ==> r[i] == Stripped(sch, boards[i])
  {
    if boards != [] {
      StrippedAllAt(sch, boards[1..]);
    }
  }

  lemma {:induction false} StrippedStaysNormalized(sch: Schema, boards: seq<Board>)
    requires Normalized(boards)
    ensures Normalized(StrippedAll(sch, boards))
  {
    var r := StrippedAll(sch, boards);
    StrippedAllAt(sch, boards);
    assert Senders(r) == Senders(boards);
    forall b | b in r ensures Clean(b) == b {
      var i :| 0 <= i < |r| && r[i] == b;
      assert boards[i] in boards;
      StrippedStaysClean(sch, boards[i]);
    }
  }

  /** Normalization leaves a normalized list alone. */
  lemma {:induction false} NormalizedIsFixed(boards: seq<Board>)
    requires Normalized(boards)
    ensures SortBoards(CleanAll(boards)) == boards
  {
    assert CleanAll(boards) == boards;
    var r := SortBoards(boards);
    TextOrder();
    SortBoardsMeaning(boards);
    AscendingUnique(TextLess, Senders(r), Senders(boards));
    NormalizedDistinct(boards);
    forall i | 0 <= i < |boards| ensures r[i] == boards[i] {
      assert Senders(r)[i] == Senders(boards)[i] && r[i] in r;
      var j :| 0 <= j < |boards| && boards[j] == r[i];
    }
  }

  lemma {:induction false} NormalizedRoundTrip(sch: Schema, boards: seq<Board>)
    requires Normalized(boards) && |boards| < TWO_32
    requires forall i :: 0 <= i < |boards| ==> Encodable(sch, boards[i])
    ensures Encode(boards).Some? && Decode(sch, Encode(boards).value) == Ok(StrippedAll(sch, boards))
  {
    EncodableEncodes(sch, boards);
    var payload := Encode(boards).value;
    HoldsSplit(payload, 0, Le(|boards|, 4), EncodeBoards(boards));
    CountRoundTrip(payload, 0, |boards|, BoardCount);
    BoardsRoundTrip(sch, payload, 4, boards, |payload|, []);
    assert [] + StrippedAll(sch, boards) == StrippedAll(sch, boards);
    StrippedStaysNormalized(sch, boards);
    NormalizedIsFixed(StrippedAll(sch, boards));
  }

  lemma {:induction false} OthersNotLonger(peers: seq<Text>, self: Text)
    ensures |Others(peers, self)| <= |peers|
  {
    if peers != [] {
      OthersNotLonger(peers[1..], self);
    }
  }

  lemma {:induction false} CleanStaysEncodable(sch: Schema, b: Board)
    requires Encodable(sch, b)
    ensures Encodable(sch, Clean(b))
  {
    var c := Clean(b);
    CleanMeaning(b);
    SortDedupNotLonger(NatLess, b.endpoints);
    SortDedupNotLonger(TextLess, b.sources);
    SortDedupNotLonger(TextLess, Others(b.connections, b.sender));
    OthersNotLonger(b.connections, b.sender);
    forall i | 0 <= i < |c.endpoints| ensures GoodEndpoint(sch, c.endpoints[i]) {
      assert c.endpoints[i] in b.endpoints;
    }
    forall i | 0 <= i < |c.sources| ensures GoodText(sch, c.sources[i]) {
      assert c.sources[i] in b.sources;
    }
    forall i | 0 <= i < |c.connections| ensures GoodText(sch, c.connections[i]) {
      assert c.connections[i] in b.connections;
    }
  }

  /** A list in normal form is no longer than any list it normalizes. */
  lemma {:induction false} NormalFormNotLonger(boards: seq<Board>, out: seq<Board>)
    requires NormalFormOf(boards, out)
    ensures |out| <= |boards|
  {
    TextOrder();
    SortDedupMeaning(TextLess, Senders(boards));
    AscendingUnique(TextLess, SortTexts(Senders(boards)), Senders(out));
    SortDedupNotLonger(TextLess, Senders(boards));
  }

  /**
    What is sent is a normal form of the given list. Decoding it gives that normal form back, without
    the discovery endpoint and without empty names.
   */
  lemma {:induction false} TopologyRoundTrip(sch: Schema, boards: seq<Board>, out: seq<Board>)
    requires NormalFormOf(boards, out) && |boards| < TWO_32
    requires forall b :: b in boards ==> Encodable(sch, b)
    ensures Encode(out).Some? && Decode(sch, Encode(out).value) == Ok(StrippedAll(sch, out))
  {
    NormalFormNormalized(boards, out);
    NormalFormNotLonger(boards, out);
    forall i | 0 <= i < |out| ensures Encodable(sch, out[i]) {
      assert out[i] in out;
      var b :| b in boards && out[i] == Clean(b);
      CleanStaysEncodable(sch, b);
    }
    NormalizedRoundTrip(sch, out);
  }

  lemma {:induction false} EncodableEncodes(sch: Schema, boards: seq<Board>)
    requires forall i :: 0 <= i < |boards| ==> Encodable(sch, boards[i])
    ensures Encode(boards).Some?
  {
    forall b | b in boards ensures |b.sender| < TWO_32 && AllFit(b.sources) && AllFit(b.connections) {
      var i :| 0 <= i < |boards| && boards[i] == b;
    }
  }

  /** The round trip is the identity on exactly the lists without discovery endpoints and empty names. */
  lemma {:induction false} NothingStripped(sch: Schema, boards: seq<Board>)
    ensures StrippedAll(sch, boards) == boards
            <==> forall i :: 0 <= i < |boards| ==>
                   sch.discovery !in boards[i].endpoints && [] !in boards[i].sources && [] !in boards[i].connections
  {
    StrippedAllAt(sch, boards);
    forall i | 0 <= i < |boards|
      ensures Stripped(sch, boards[i]) == boards[i]
              <==> sch.discovery !in boards[i].endpoints && [] !in boards[i].sources && [] !in boards[i].connections
    {
      WithoutDiscoveryUnchanged(sch, boards[i].endpoints);
      NonEmptyUnchanged(boards[i].sources);
      NonEmptyUnchanged(boards[i].connections);
    }
  }

  // -------------------------------------------------------------------------
  // The parser as it runs: loops that move a cursor
  // -------------------------------------------------------------------------

  method ReadTexts(sch: Schema, payload: Bytes, start: nat, count: nat, problem: Problem) returns (r: Parsed<seq<Text>>)
    requires start <= |payload|
    ensures r == DecodeTexts(sch, payload, start, count, [], problem)
  {
    var cursor: nat, names: seq<Text>, left: nat := start, [], count;
    while left > 0
      invariant cursor <= |payload|
      invariant DecodeTexts(sch, payload, start, count, [], problem)
                == DecodeTexts(sch, payload, cursor, left, names, problem)
    {
      var t := DecodeText(sch, payload, cursor, problem);
      if t.Refused? {
        return Refused(t.problem);
      }
      if |t.value| != 0 {
        names := names + [t.value];
      }
      cursor, left := t.next, left - 1;
    }
    r := Parsed(names, cursor);
  }

  method ReadEndpoints(sch: Schema, payload: Bytes, start: nat, count: nat) returns (r: Parsed<seq<nat>>)
    requires start <= |payload|
    ensures r == DecodeEndpoints(sch, payload, start, count, [])
  {
    var cursor: nat, endpoints: seq<nat>, left: nat := start, [], count;
    while left > 0
      invariant cursor <= |payload|
      invariant DecodeEndpoints(sch, payload, start, count, [])
                == DecodeEndpoints(sch, payload, cursor, left, endpoints)
    {
      var word := DecodeCount(payload, cursor, EndpointWord);
      if word.Refused? {
        return Refused(word.problem);
      }
      if !sch.isEndpoint(word.value) {
        return Refused(BadEndpoint);
      }
      if word.value != sch.discovery {
        endpoints := endpoints + [word.value];
      }
      cursor, left := word.next, left - 1;
    }
    r := Parsed(endpoints, cursor);
  }

  method ReadTextList(sch: Schema, payload: Bytes, start: nat, countProblem: Problem, problem: Problem)
    returns (r: Parsed<seq<Text>>)
    requires start <= |payload|
    ensures r == DecodeTextList(sch, payload, start, countProblem, problem)
  {
    var count := DecodeCount(payload, start, countProblem);
    if count.Refused? {
      return Refused(count.problem);
    }
    r := ReadTexts(sch, payload, count.next, count.value, problem);
  }

  method ReadBoard(sch: Schema, payload: Bytes, start: nat) returns (r: Parsed<Board>)
    requires start <= |payload|
    ensures r == DecodeBoard(sch, payload, start)
  {
    var sender := DecodeText(sch, payload, start, SenderId);
    if sender.Refused? {
      return Refused(sender.problem);
    }
    var count := DecodeCount(payload, sender.next, EndpointCount);
    if count.Refused? {
      return Refused(count.problem);
    }
    var endpoints := ReadEndpoints(sch, payload, count.next, count.value);
    if endpoints.Refused? {
      return Refused(endpoints.problem);
    }
    var sources := ReadTextList(sch, payload, endpoints.next, SourceCount, SourceId);
    if sources.Refused? {
      return Refused(sources.problem);
    }
    var connections := ReadTextList(sch, payload, sources.next, ConnectionCount, ConnectionId);
    if connections.Refused? {
      return Refused(connections.problem);
    }
    r := Parsed(Board(sender.value, endpoints.value, sources.value, connections.value), connections.next);
  }

  method ReadBoards(sch: Schema, payload: Bytes, start: nat, count: nat) returns (r: Parsed<seq<Board>>)
    requires start <= |payload|
    ensures r == DecodeBoards(sch, payload, start, count, [])
  {
    hide DecodeBoard;
    var cursor: nat, boards: seq<Board>, left: nat := start, [], count;
    while left > 0
      invariant cursor <= |payload|
      invariant DecodeBoards(sch, payload, start, count, []) == DecodeBoards(sch, payload, cursor, left, boards)
    {
      var b := ReadBoard(sch, payload, cursor);
      if b.Refused? {
        return Refused(b.problem);
      }
      boards := boards + [b.value];
      cursor, left := b.next, left - 1;
    }
    r := Parsed(boards, cursor);
  }

  /** Accepts a payload only when the cursor has consumed all of it; what it returns is in normal form. */
  method DecodeTopologyPayload(sch: Schema, payload: Bytes) returns (r: Result<seq<Board>, Problem>)
    ensures match r
            case Err(e) => Decode(sch, payload) == Err(e)
            case Ok(out) =>
              && |payload| >= 4
              && var body := DecodeBoards(sch, payload, 4, ReadLe(payload, 0, 4), []);
                 body.Parsed? && body.next == |payload| && NormalFormOf(body.value, out)
  {
    var count := DecodeCount(payload, 0, BoardCount);
    if count.Refused? {
      return Err(count.problem);
    }
    var boards := ReadBoards(sch, payload, count.next, count.value);
    if boards.Refused? {
      return Err(boards.problem);
    }
    if boards.next != |payload| {
      return Err(TrailingBytes);
    }
    var normalized := NormalizeTopologyBoards(boards.value);
    r := Ok(normalized);
  }
}
