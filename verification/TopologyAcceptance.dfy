/** What the topology decoder accepts: any payload, whoever made it. */
module TopologyAcceptance {
  import opened Wrappers
  import opened LittleEndian
  import opened CanonicalLists
  import opened Topology
  import opened TopologyCodec

  /** A name that may come out of a list: text, not empty, with a 32-bit length. */
  predicate Name(sch: Schema, t: Text)
  {
    sch.utf8(t) && 0 < |t| < TWO_32
  }

  /** An endpoint that may come out of a list: a known one, and not that of discovery itself. */
  predicate Reachable(sch: Schema, e: nat)
  {
    sch.isEndpoint(e) && e != sch.discovery && e < TWO_32
  }

  /** A board that may come out of a payload. */
  ghost predicate Acceptable(sch: Schema, b: Board)
  {
    && sch.utf8(b.sender) && |b.sender| < TWO_32
    && |b.endpoints| < TWO_32 && |b.sources| < TWO_32 && |b.connections| < TWO_32
    && (forall e :: e in b.endpoints ==> Reachable(sch, e))
    && (forall t :: t in b.sources ==> Name(sch, t)) && (forall t :: t in b.connections ==> Name(sch, t))
  }

  lemma {:induction false} SmallCount(payload: Bytes, at: nat)
    requires at + 4 <= |payload|
    ensures ReadLe(payload, at, 4) < TWO_32
  {
    Widths();
    LeOfValue(payload[at..at + 4]);
  }

  lemma {:induction false} CountGood(payload: Bytes, cursor: nat, problem: Problem)
    requires cursor <= |payload|
    ensures DecodeCount(payload, cursor, problem).Parsed? ==> DecodeCount(payload, cursor, problem).value < TWO_32
    ensures DecodeCount(payload, cursor, problem).Refused? ==> DecodeCount(payload, cursor, problem).problem == problem
  {
    if |payload| - cursor >= 4 {
      SmallCount(payload, cursor);
    }
  }

  lemma {:induction false} TextGood(sch: Schema, payload: Bytes, cursor: nat, problem: Problem)
    requires cursor <= |payload|
    ensures var r := DecodeText(sch, payload, cursor, problem);
            && (r.Parsed? ==> sch.utf8(r.value) && |r.value| < TWO_32)
            && (r.Refused? ==> r.problem == problem)
  {
    CountGood(payload, cursor, problem);
  }

  lemma {:induction false} TextsGood(sch: Schema, payload: Bytes, cursor: nat, count: nat, acc: seq<Text>,
      problem: Problem, t: Text)
    requires cursor <= |payload|
    ensures var r := DecodeTexts(sch, payload, cursor, count, acc, problem);
            && (r.Parsed? ==> |r.value| <= |acc| + count && (t in r.value ==> t in acc || Name(sch, t)))
            && (r.Refused? ==> r.problem == problem)
    decreases count
  {
    hide DecodeText;
    if count > 0 {
      TextGood(sch, payload, cursor, problem);
      var r := DecodeText(sch, payload, cursor, problem);
      if r.Parsed? {
        TextsGood(sch, payload, r.next, count - 1, if |r.value| == 0 then acc else acc + [r.value], problem, t);
      }
    }
  }

  lemma {:induction false} EndpointsGood(sch: Schema, payload: Bytes, cursor: nat, count: nat, acc: seq<nat>, e: nat)
    requires cursor <= |payload|
    ensures var r := DecodeEndpoints(sch, payload, cursor, count, acc);
            && (r.Parsed? ==> |r.value| <= |acc| + count && (e in r.value ==> e in acc || Reachable(sch, e)))
            && (r.Refused? ==> r.problem in {EndpointWord, BadEndpoint})
    decreases count
  {
    hide DecodeCount;
    if count > 0 {
      CountGood(payload, cursor, EndpointWord);
      var r := DecodeCount(payload, cursor, EndpointWord);
      if r.Parsed? && sch.isEndpoint(r.value) {
        EndpointsGood(sch, payload, r.next, count - 1, if r.value == sch.discovery then acc else acc + [r.value], e);
      }
    }
  }

  lemma {:induction false} TextListGood(sch: Schema, payload: Bytes, cursor: nat, countProblem: Problem,
      problem: Problem)
    requires cursor <= |payload|
    ensures var r := DecodeTextList(sch, payload, cursor, countProblem, problem);
            && (r.Parsed? ==> |r.value| < TWO_32 && forall t :: t in r.value ==> Name(sch, t))
            && (r.Refused? ==> r.problem in {countProblem, problem})
            && (r.Refused? && |payload| - cursor < 4 ==> r.problem == countProblem)
            && (r.Refused? && |payload| - cursor >= 4 ==> r.problem == problem)
  {
    hide DecodeTexts;
    CountGood(payload, cursor, countProblem);
    var n := DecodeCount(payload, cursor, countProblem);
    if n.Parsed? {
      var r := DecodeTexts(sch, payload, n.next, n.value, [], problem);
      TextsGood(sch, payload, n.next, n.value, [], problem, []);
      forall t | r.Parsed? && t in r.value ensures Name(sch, t) {
        TextsGood(sch, payload, n.next, n.value, [], problem, t);
      }
    }
  }

  lemma {:induction false} EndpointListGood(sch: Schema, payload: Bytes, cursor: nat)
    requires cursor <= |payload|
    ensures var r := DecodeEndpointList(sch, payload, cursor);
            && (r.Parsed? ==> |r.value| < TWO_32 && forall e :: e in r.value ==> Reachable(sch, e))
            && (r.Refused? && |payload| - cursor < 4 ==> r.problem == EndpointCount)
            && (r.Refused? && |payload| - cursor >= 4 ==> r.problem in {EndpointWord, BadEndpoint})
  {
    hide DecodeEndpoints;
    CountGood(payload, cursor, EndpointCount);
    var n := DecodeCount(payload, cursor, EndpointCount);
    if n.Parsed? {
      var r := DecodeEndpoints(sch, payload, n.next, n.value, []);
      EndpointsGood(sch, payload, n.next, n.value, [], 0);
      forall e: nat | r.Parsed? && e in r.value ensures Reachable(sch, e) {
        EndpointsGood(sch, payload, n.next, n.value, [], e);
      }
    }
  }

  /** A board is read with nothing in it that does not belong there, or refused for the part that is at fault. */
  lemma {:induction false} BoardGood(sch: Schema, payload: Bytes, cursor: nat)
    requires cursor <= |payload|
    ensures var r := DecodeBoard(sch, payload, cursor);
            && (r.Parsed? ==> Acceptable(sch, r.value))
            && (r.Refused? ==>
                  var sender := DecodeText(sch, payload, cursor, SenderId);
                  if sender.Refused? then r.problem == SenderId
                  else
                    var endpoints := DecodeEndpointList(sch, payload, sender.next);
                    if endpoints.Refused? then r.problem in {EndpointCount, EndpointWord, BadEndpoint}
                    else if DecodeTextList(sch, payload, endpoints.next, SourceCount, SourceId).Refused?
                    then r.problem in {SourceCount, SourceId}
                    else r.problem in {ConnectionCount, ConnectionId})
  {
    hide DecodeText, DecodeEndpointList, DecodeTextList, Name, Reachable;
    TextGood(sch, payload, cursor, SenderId);
    var sender := DecodeText(sch, payload, cursor, SenderId);
    if sender.Parsed? {
      EndpointListGood(sch, payload, sender.next);
      var endpoints := DecodeEndpointList(sch, payload, sender.next);
      if endpoints.Parsed? {
        TextListGood(sch, payload, endpoints.next, SourceCount, SourceId);
        var sources := DecodeTextList(sch, payload, endpoints.next, SourceCount, SourceId);
        if sources.Parsed? {
          TextListGood(sch, payload, sources.next, ConnectionCount, ConnectionId);
        }
      }
    }
  }

  lemma {:induction false} BoardsGood(sch: Schema, payload: Bytes, cursor: nat, count: nat, acc: seq<Board>)
    requires cursor <= |payload| && forall b :: b in acc ==> Acceptable(sch, b)
    ensures var r := DecodeBoards(sch, payload, cursor, count, acc);
            r.Parsed? ==> forall b :: b in r.value ==> Acceptable(sch, b)
    decreases count
  {
    hide DecodeBoard, Acceptable;
    if count > 0 {
      BoardGood(sch, payload, cursor);
      var r := DecodeBoard(sch, payload, cursor);
      if r.Parsed? {
        BoardsGood(sch, payload, r.next, count - 1, acc + [r.value]);
      }
    }
  }

  lemma {:induction false} CleanAcceptable(sch: Schema, b: Board)
    requires Acceptable(sch, b)
    ensures Acceptable(sch, Clean(b))
  {
    hide Name, Reachable;
    CleanMeaning(b);
    SortDedupNotLonger(NatLess, b.endpoints);
    SortDedupNotLonger(TextLess, b.sources);
    SortDedupNotLonger(TextLess, Others(b.connections, b.sender));
    OthersNotLonger(b.connections, b.sender);
  }

  /**
    Whatever payload is decoded, the boards are in normal form, and none has the discovery endpoint, an unknown
    endpoint, an empty name or one that is not text.
   */
  lemma {:induction false} DecodedTopologyIsGood(sch: Schema, payload: Bytes)
    requires Decode(sch, payload).Ok?
    ensures var boards := Decode(sch, payload).value;
            Normalized(boards) && |boards| < TWO_32 && forall b :: b in boards ==> Acceptable(sch, b)
  {
    hide DecodeBoards, DecodeCount, Acceptable, SortBoards, CleanAll, Clean, Senders, Normalized;
    CountGood(payload, 0, BoardCount);
    var n := DecodeCount(payload, 0, BoardCount);
    BoardsGood(sch, payload, n.next, n.value, []);
    var raw := DecodeBoards(sch, payload, n.next, n.value, []).value;
    NormalizedBoards(sch, raw);
  }

  lemma {:induction false} NormalizedBoards(sch: Schema, raw: seq<Board>)
    requires |raw| < TWO_32 && forall b :: b in raw ==> Acceptable(sch, b)
    ensures var out := SortBoards(CleanAll(raw));
            Normalized(out) && |out| < TWO_32 && forall b :: b in out ==> Acceptable(sch, b)
  {
    hide Acceptable, SortBoards, Clean;
    var cleaned := CleanAll(raw);
    var out := SortBoards(cleaned);
    forall c | c in cleaned ensures exists b :: b in raw && c == Clean(b) {
      var i :| 0 <= i < |cleaned| && cleaned[i] == c;
      assert raw[i] in raw;
    }
    SortedIsNormalForm(raw, cleaned);
    NormalFormNormalized(raw, out);
    NormalFormNotLonger(raw, out);
    forall o | o in out ensures Acceptable(sch, o) {
      var b :| b in raw && o == Clean(b);
      CleanAcceptable(sch, b);
    }
  }

  lemma {:induction false} AcceptableEncodes(sch: Schema, b: Board)
    requires Acceptable(sch, b)
    ensures Encodable(sch, b) && sch.discovery !in b.endpoints && [] !in b.sources && [] !in b.connections
  {
    assert forall i :: 0 <= i < |b.endpoints| ==> b.endpoints[i] in b.endpoints;
    assert forall i :: 0 <= i < |b.sources| ==> b.sources[i] in b.sources;
    assert forall i :: 0 <= i < |b.connections| ==> b.connections[i] in b.connections;
  }

  /** Every payload that is accepted says the same after decoding and encoding it again. */
  lemma {:induction false} ReencodingKeepsTopology(sch: Schema, payload: Bytes)
    requires Decode(sch, payload).Ok?
    ensures var boards := Decode(sch, payload).value;
            Encode(boards).Some? && Decode(sch, Encode(boards).value) == Ok(boards)
  {
    hide Decode, Encode, Acceptable, Encodable, Normalized;
    var boards := Decode(sch, payload).value;
    DecodedTopologyIsGood(sch, payload);
    forall i | 0 <= i < |boards|
      ensures Encodable(sch, boards[i])
      ensures sch.discovery !in boards[i].endpoints && [] !in boards[i].sources && [] !in boards[i].connections
    {
      AcceptableEncodes(sch, boards[i]);
    }
    NormalizedRoundTrip(sch, boards);
    NothingStripped(sch, boards);
  }
}
