/**
  Discovered board topology: normalization, merging of views learned from several peers, and the
  reachability summary drawn from them.
 */
module Topology {
  import opened CanonicalLists

  datatype Board = Board(sender: Text, endpoints: seq<nat>, sources: seq<Text>, connections: seq<Text>)

  function Others(peers: seq<Text>, self: Text): seq<Text>
  {
    if peers == [] then []
    else (if peers[0] == self then [] else [peers[0]]) + Others(peers[1..], self)
  }

  /** One board with its lists sorted and deduplicated and no connection to itself. */
  function Clean(b: Board): Board
  {
    Board(b.sender, SortNats(b.endpoints), SortTexts(b.sources), SortTexts(Others(b.connections, b.sender)))
  }

  function Senders(boards: seq<Board>): (r: seq<Text>)
    ensures |r| == |boards| && forall i :: 0 <= i < |boards| ==> r[i] == boards[i].sender
  {
    seq(|boards|, i requires 0 <= i < |boards| => boards[i].sender)
  }

  // -------------------------------------------------------------------------
  // Normal form
  // -------------------------------------------------------------------------

  ghost predicate Normalized(boards: seq<Board>)
  {
    && Ascending(TextLess, Senders(boards))
    && forall b :: b in boards ==> Clean(b) == b
  }

  /**
    A possible outcome of normalization: every sender once, in order, each with the cleaned form of one
    of its boards. Which one survives is open when a sender appears twice, because the sort is unstable.
   */
  ghost predicate NormalFormOf(boards: seq<Board>, out: seq<Board>)
  {
    && Ascending(TextLess, Senders(out))
    && (forall s :: s in Senders(out) <==> s in Senders(boards))
    && (forall o :: o in out ==> exists b :: b in boards && o == Clean(b))
  }

  ghost predicate DistinctSenders(boards: seq<Board>)
  {
    forall i, j :: 0 <= i < j < |boards| ==> boards[i].sender != boards[j].sender
  }

  lemma {:induction false} OthersElement(peers: seq<Text>, self: Text, p: Text)
    ensures p in Others(peers, self) <==> p in peers && p != self
  {
    if peers != [] {
      OthersElement(peers[1..], self, p);
    }
  }

  /** What cleaning means, element by element. */
  lemma CleanMeaning(b: Board)
    ensures var c := Clean(b);
            && (forall e :: e in c.endpoints <==> e in b.endpoints)
            && (forall s :: s in c.sources <==> s in b.sources)
            && (forall p :: p in c.connections <==> p in b.connections && p != b.sender)
            && Ascending(NatLess, c.endpoints) && Ascending(TextLess, c.sources) && Ascending(TextLess, c.connections)
  {
    TextOrder();
    SortDedupMeaning(NatLess, b.endpoints);
    SortDedupMeaning(TextLess, b.sources);
    SortDedupMeaning(TextLess, Others(b.connections, b.sender));
    forall p ensures p in Others(b.connections, b.sender) <==> p in b.connections && p != b.sender {
      OthersElement(b.connections, b.sender, p);
    }
  }

  /** Two cleaned boards of one sender with the same elements are equal. */
  lemma CleanUnique(b: Board, c: Board)
    requires Clean(b) == b && Clean(c) == c && b.sender == c.sender
    requires forall e :: e in b.endpoints <==> e in c.endpoints
    requires forall s :: s in b.sources <==> s in c.sources
    requires forall p :: p in b.connections <==> p in c.connections
    ensures b == c
  {
    TextOrder();
    CleanMeaning(b);
    CleanMeaning(c);
    AscendingUnique(NatLess, b.endpoints, c.endpoints);
    AscendingUnique(TextLess, b.sources, c.sources);
    AscendingUnique(TextLess, b.connections, c.connections);
  }

  lemma CleanIdempotent(b: Board)
    ensures Clean(Clean(b)) == Clean(b)
  {
    var c := Clean(b);
    CleanMeaning(b);
    CleanMeaning(c);
    TextOrder();
    AscendingUnique(NatLess, c.endpoints, Clean(c).endpoints);
    AscendingUnique(TextLess, c.sources, Clean(c).sources);
    AscendingUnique(TextLess, c.connections, Clean(c).connections);
  }

  // -------------------------------------------------------------------------
  // The set view of a board list
  // -------------------------------------------------------------------------

  /** Everything a board list says, as sets; self-connections say nothing. */
  datatype View = View(
    senders: set<Text>, endpoints: set<(Text, nat)>, sources: set<(Text, Text)>, links: set<(Text, Text)>)

  ghost function ViewOf(boards: seq<Board>): View
  {
    View(set b | b in boards :: b.sender,
         set b, e | b in boards && e in b.endpoints :: (b.sender, e),
         set b, s | b in boards && s in b.sources :: (b.sender, s),
         set b, p | b in boards && p in b.connections && p != b.sender :: (b.sender, p))
  }

  ghost function Join(a: View, b: View): View
  {
    View(a.senders + b.senders, a.endpoints + b.endpoints, a.sources + b.sources, a.links + b.links)
  }

  lemma SameSenderSameBoard(boards: seq<Board>, b: Board, c: Board)
    requires Ascending(TextLess, Senders(boards))
    requires b in boards && c in boards && b.sender == c.sender
    ensures b == c
  {
    TextOrder();
    var i :| 0 <= i < |boards| && boards[i] == b;
    var j :| 0 <= j < |boards| && boards[j] == c;
    assert Senders(boards)[i] == Senders(boards)[j];
  }

  /** A normalized list is determined by what it says. */
  lemma NormalizedUnique(a: seq<Board>, b: seq<Board>)
    requires Normalized(a) && Normalized(b) && ViewOf(a) == ViewOf(b)
    ensures a == b
  {
    TextOrder();
    forall s ensures s in Senders(a) <==> s in Senders(b) {
      SendersView(a, s);
      SendersView(b, s);
    }
    AscendingUnique(TextLess, Senders(a), Senders(b));
    assert |a| == |b|;
    forall i | 0 <= i < |a| ensures a[i] == b[i] {
      assert Senders(a)[i] == Senders(b)[i];
      BoardView(a, a[i]);
      BoardView(b, b[i]);
      CleanUnique(a[i], b[i]);
    }
  }

  lemma SendersView(a: seq<Board>, s: Text)
    ensures s in Senders(a) <==> s in ViewOf(a).senders
  {
    if s in Senders(a) {
      var i :| 0 <= i < |a| && Senders(a)[i] == s;
      assert a[i] in a;
    }
  }

  /** In a normalized list each board can be read back from the view. */
  lemma BoardView(a: seq<Board>, b: Board)
    requires Normalized(a) && b in a
    ensures forall e :: e in b.endpoints <==> (b.sender, e) in ViewOf(a).endpoints
    ensures forall s :: s in b.sources <==> (b.sender, s) in ViewOf(a).sources
    ensures forall p :: p in b.connections <==> (b.sender, p) in ViewOf(a).links
  {
    CleanMeaning(b);
    forall c | c in a && c.sender == b.sender ensures c == b {
      SameSenderSameBoard(a, b, c);
    }
  }

  // -------------------------------------------------------------------------
  // Merging
  // -------------------------------------------------------------------------

  /** Boards keyed by sender; a later board of the same sender replaces an earlier one. */
  function Collect(boards: seq<Board>): (m: map<Text, Board>)
    ensures forall s :: s in m ==> m[s].sender == s && m[s] in boards
    ensures forall s :: s in m <==> s in Senders(boards)
  {
    if boards == [] then map[]
    else
      var n := |boards| - 1;
      assert boards == boards[..n] + [boards[n]];
      assert Senders(boards) == Senders(boards[..n]) + [boards[n].sender];
      Collect(boards[..n])[boards[n].sender := boards[n]]
  }

  function Extended(m: map<Text, Board>, b: Board): map<Text, Board>
  {
    var entry := if b.sender in m then m[b.sender] else Board(b.sender, [], [], []);
    m[b.sender := Board(b.sender, entry.endpoints + b.endpoints, entry.sources + b.sources,
        entry.connections + b.connections)]
  }

  function Absorb(m: map<Text, Board>, src: seq<Board>): map<Text, Board>
    decreases |src|
  {
    if src == [] then m else Absorb(Extended(m, src[0]), src[1..])
  }

  ghost predicate Keyed(m: map<Text, Board>)
  {
    forall s :: s in m ==> m[s].sender == s
  }

  /** The values of a sender-keyed map in key order, each cleaned. */
  function InOrder(m: map<Text, Board>, keys: seq<Text>): (r: seq<Board>)
    requires forall s :: s in keys ==> s in m
    ensures |r| == |keys| && forall i :: 0 <= i < |keys| ==> r[i] == Clean(m[keys[i]])
  {
    seq(|keys|, i requires 0 <= i < |keys| => Clean(m[keys[i]]))
  }

  function Merge(dst: seq<Board>, src: seq<Board>): seq<Board>
  {
    var m := Absorb(Collect(dst), src);
    var keys := SortTexts(Senders(dst) + Senders(src));
    assert forall s :: s in keys ==> s in m by {
      MergeKeys(dst, src);
    }
    InOrder(m, keys)
  }

  lemma {:induction false} AbsorbKeys(m: map<Text, Board>, src: seq<Board>, s: Text)
    ensures s in Absorb(m, src) <==> s in m || s in Senders(src)
    ensures Keyed(m) ==> Keyed(Absorb(m, src))
    decreases |src|
  {
    if src != [] {
      AbsorbKeys(Extended(m, src[0]), src[1..], s);
      assert Senders(src) == [src[0].sender] + Senders(src[1..]);
    }
  }

  lemma MergeKeys(dst: seq<Board>, src: seq<Board>)
    ensures var m := Absorb(Collect(dst), src);
            && (forall s :: s in SortTexts(Senders(dst) + Senders(src)) <==> s in m)
            && Keyed(m)
  {
    AbsorbKeys(Collect(dst), src, []);
    forall s ensures s in SortTexts(Senders(dst) + Senders(src)) <==> s in Absorb(Collect(dst), src) {
      SortDedupElement(TextLess, Senders(dst) + Senders(src), s);
      AbsorbKeys(Collect(dst), src, s);
    }
  }

  ghost predicate HasEndpoint(boards: seq<Board>, s: Text, e: nat)
  {
    exists b :: b in boards && b.sender == s && e in b.endpoints
  }

  ghost predicate HasSource(boards: seq<Board>, s: Text, t: Text)
  {
    exists b :: b in boards && b.sender == s && t in b.sources
  }

  ghost predicate HasPeer(boards: seq<Board>, s: Text, p: Text)
  {
    exists b :: b in boards && b.sender == s && p in b.connections
  }

  /** What one sender's entry holds after absorbing a list: its old content and everything the list says about it. */
  lemma {:induction false} AbsorbAt(m: map<Text, Board>, src: seq<Board>, s: Text, e: nat, t: Text)
    requires Keyed(m)
    requires s in Absorb(m, src)
    ensures var b := Absorb(m, src)[s];
            && (e in b.endpoints <==> (s in m && e in m[s].endpoints) || HasEndpoint(src, s, e))
            && (t in b.sources <==> (s in m && t in m[s].sources) || HasSource(src, s, t))
            && (t in b.connections <==> (s in m && t in m[s].connections) || HasPeer(src, s, t))
    decreases |src|
  {
    if src != [] {
      var head, tail := src[0], src[1..];
      AbsorbAt(Extended(m, head), tail, s, e, t);
      assert src == [head] + tail;
      SplitHead(head, tail, s, e, t);
    }
  }

  lemma SplitHead(head: Board, tail: seq<Board>, s: Text, e: nat, t: Text)
    ensures HasEndpoint([head] + tail, s, e) <==> (head.sender == s && e in head.endpoints) || HasEndpoint(tail, s, e)
    ensures HasSource([head] + tail, s, t) <==> (head.sender == s && t in head.sources) || HasSource(tail, s, t)
    ensures HasPeer([head] + tail, s, t) <==> (head.sender == s && t in head.connections) || HasPeer(tail, s, t)
  {
    var all := [head] + tail;
    assert forall b :: b in all <==> b == head || b in tail;
  }

  lemma CollectDistinct(boards: seq<Board>, b: Board)
    requires DistinctSenders(boards) && b in boards
    ensures b.sender in Collect(boards) && Collect(boards)[b.sender] == b
  {
    var i :| 0 <= i < |boards| && boards[i] == b;
    assert Senders(boards)[i] == b.sender;
    var c := Collect(boards)[b.sender];
    var j :| 0 <= j < |boards| && boards[j] == c;
  }

  lemma InOrderSenders(m: map<Text, Board>, keys: seq<Text>)
    requires Keyed(m) && forall s :: s in keys ==> s in m
    ensures Senders(InOrder(m, keys)) == keys
  {
  }

  /** Merging always yields a normalized list. */
  lemma MergeNormalized(dst: seq<Board>, src: seq<Board>)
    ensures Normalized(Merge(dst, src))
  {
    var m := Absorb(Collect(dst), src);
    var keys := SortTexts(Senders(dst) + Senders(src));
    TextOrder();
    MergeKeys(dst, src);
    InOrderSenders(m, keys);
    SortDedupAscending(TextLess, Senders(dst) + Senders(src));
    forall b | b in Merge(dst, src) ensures Clean(b) == b {
      var i :| 0 <= i < |keys| && b == InOrder(m, keys)[i];
      CleanIdempotent(m[keys[i]]);
    }
  }

  /** The merged board of a sender carries exactly what either side said about that sender. */
  lemma MergeAt(dst: seq<Board>, src: seq<Board>, b: Board, e: nat, t: Text)
    requires DistinctSenders(dst) && b in Merge(dst, src)
    ensures e in b.endpoints <==> HasEndpoint(dst, b.sender, e) || HasEndpoint(src, b.sender, e)
    ensures t in b.sources <==> HasSource(dst, b.sender, t) || HasSource(src, b.sender, t)
    ensures t in b.connections <==> t != b.sender && (HasPeer(dst, b.sender, t) || HasPeer(src, b.sender, t))
  {
    var c := Collect(dst);
    var m := Absorb(c, src);
    var keys := SortTexts(Senders(dst) + Senders(src));
    MergeKeys(dst, src);
    var i :| 0 <= i < |keys| && b == InOrder(m, keys)[i];
    var s := keys[i];
    CleanMeaning(m[s]);
    AbsorbAt(c, src, s, e, t);
    CollectAt(dst, s, e, t);
  }

  lemma CollectAt(dst: seq<Board>, s: Text, e: nat, t: Text)
    requires DistinctSenders(dst)
    ensures var c := Collect(dst);
            && (HasEndpoint(dst, s, e) <==> s in c && e in c[s].endpoints)
            && (HasSource(dst, s, t) <==> s in c && t in c[s].sources)
            && (HasPeer(dst, s, t) <==> s in c && t in c[s].connections)
  {
    forall b | b in dst && b.sender == s ensures s in Collect(dst) && Collect(dst)[s] == b {
      CollectDistinct(dst, b);
    }
  }

  lemma MergeSenders(dst: seq<Board>, src: seq<Board>, s: Text)
    ensures s in ViewOf(Merge(dst, src)).senders <==> s in ViewOf(dst).senders || s in ViewOf(src).senders
  {
    var m := Absorb(Collect(dst), src);
    var keys := SortTexts(Senders(dst) + Senders(src));
    MergeKeys(dst, src);
    InOrderSenders(m, keys);
    SendersView(Merge(dst, src), s);
    SendersView(dst, s);
    SendersView(src, s);
    SortDedupElement(TextLess, Senders(dst) + Senders(src), s);
  }

  /** A merged list says exactly what its two sides say: merging is the union of views. */
  lemma MergeIsUnion(dst: seq<Board>, src: seq<Board>)
    requires DistinctSenders(dst)
    ensures ViewOf(Merge(dst, src)) == Join(ViewOf(dst), ViewOf(src))
  {
    var r, v, d, w := Merge(dst, src), ViewOf(Merge(dst, src)), ViewOf(dst), ViewOf(src);
    forall s ensures s in v.senders <==> s in d.senders || s in w.senders {
      MergeSenders(dst, src, s);
    }
    forall s, e: nat ensures (s, e) in v.endpoints <==> (s, e) in d.endpoints || (s, e) in w.endpoints {
      MergeFacts(dst, src, s, e, []);
    }
    forall s, t
      ensures (s, t) in v.sources <==> (s, t) in d.sources || (s, t) in w.sources
      ensures (s, t) in v.links <==> (s, t) in d.links || (s, t) in w.links
    {
      MergeFacts(dst, src, s, 0, t);
    }
    assert v.endpoints == d.endpoints + w.endpoints;
    assert v.sources == d.sources + w.sources;
    assert v.links == d.links + w.links;
  }

  lemma ViewFacts(boards: seq<Board>, s: Text, e: nat, t: Text)
    ensures (s, e) in ViewOf(boards).endpoints <==> HasEndpoint(boards, s, e)
    ensures (s, t) in ViewOf(boards).sources <==> HasSource(boards, s, t)
    ensures (s, t) in ViewOf(boards).links <==> HasPeer(boards, s, t) && s != t
    ensures HasEndpoint(boards, s, e) || HasSource(boards, s, t) || HasPeer(boards, s, t)
            ==> s in ViewOf(boards).senders
  {
  }

  lemma MergeFacts(dst: seq<Board>, src: seq<Board>, s: Text, e: nat, t: Text)
    requires DistinctSenders(dst)
    ensures var v, d, w := ViewOf(Merge(dst, src)), ViewOf(dst), ViewOf(src);
            && ((s, e) in v.endpoints <==> (s, e) in d.endpoints || (s, e) in w.endpoints)
            && ((s, t) in v.sources <==> (s, t) in d.sources || (s, t) in w.sources)
            && ((s, t) in v.links <==> (s, t) in d.links || (s, t) in w.links)
  {
    var r := Merge(dst, src);
    ViewFacts(r, s, e, t);
    ViewFacts(dst, s, e, t);
    ViewFacts(src, s, e, t);
    MergeSenders(dst, src, s);
    forall b | b in r && b.sender == s
      ensures e in b.endpoints <==> HasEndpoint(dst, s, e) || HasEndpoint(src, s, e)
      ensures t in b.sources <==> HasSource(dst, s, t) || HasSource(src, s, t)
      ensures t in b.connections <==> t != s && (HasPeer(dst, s, t) || HasPeer(src, s, t))
    {
      MergeAt(dst, src, b, e, t);
    }
  }

  // -------------------------------------------------------------------------
  // Merging is a join
  // -------------------------------------------------------------------------

  lemma NormalizedDistinct(boards: seq<Board>)
    requires Normalized(boards)
    ensures DistinctSenders(boards)
  {
    TextOrder();
    assert forall i, j :: 0 <= i < j < |boards| ==> TextLess(Senders(boards)[i], Senders(boards)[j]);
  }

  /** On a normalized destination, a merge is normalized and joins the views. */
  lemma MergeJoins(a: seq<Board>, b: seq<Board>)
    requires Normalized(a)
    ensures Normalized(Merge(a, b)) && ViewOf(Merge(a, b)) == Join(ViewOf(a), ViewOf(b))
  {
    NormalizedDistinct(a);
    MergeIsUnion(a, b);
    MergeNormalized(a, b);
  }

  lemma JoinLaws(x: View, y: View, z: View)
    ensures Join(x, y) == Join(y, x) && Join(Join(x, y), z) == Join(x, Join(y, z)) && Join(x, x) == x
  {
  }

  lemma MergeCommutes(a: seq<Board>, b: seq<Board>)
    requires Normalized(a) && Normalized(b)
    ensures Merge(a, b) == Merge(b, a)
  {
    MergeJoins(a, b);
    MergeJoins(b, a);
    JoinLaws(ViewOf(a), ViewOf(b), ViewOf(a));
    NormalizedUnique(Merge(a, b), Merge(b, a));
  }

  lemma MergeAssociates(a: seq<Board>, b: seq<Board>, c: seq<Board>)
    requires Normalized(a) && Normalized(b) && Normalized(c)
    ensures Merge(Merge(a, b), c) == Merge(a, Merge(b, c))
  {
    MergeJoins(a, b);
    MergeJoins(b, c);
    MergeJoins(Merge(a, b), c);
    MergeJoins(a, Merge(b, c));
    JoinLaws(ViewOf(a), ViewOf(b), ViewOf(c));
    NormalizedUnique(Merge(Merge(a, b), c), Merge(a, Merge(b, c)));
  }

  lemma MergeIdempotent(a: seq<Board>)
    requires Normalized(a)
    ensures Merge(a, a) == a
  {
    MergeJoins(a, a);
    JoinLaws(ViewOf(a), ViewOf(a), ViewOf(a));
    NormalizedUnique(Merge(a, a), a);
  }

  /** Folds learned lists into an accumulated one. */
  function MergeAll(acc: seq<Board>, lists: seq<seq<Board>>): seq<Board>
    decreases |lists|
  {
    if lists == [] then acc else MergeAll(Merge(acc, lists[0]), lists[1..])
  }

  /** Everything any of the lists says. */
  ghost function ViewOfAll(lists: seq<seq<Board>>): View
  {
    View(set l, s | l in lists && s in ViewOf(l).senders :: s,
         set l, f | l in lists && f in ViewOf(l).endpoints :: f,
         set l, f | l in lists && f in ViewOf(l).sources :: f,
         set l, f | l in lists && f in ViewOf(l).links :: f)
  }

  lemma ViewOfAllCons(list: seq<Board>, lists: seq<seq<Board>>)
    ensures ViewOfAll([list] + lists) == Join(ViewOf(list), ViewOfAll(lists))
  {
    var all := [list] + lists;
    assert forall l :: l in all <==> l == list || l in lists;
  }

  lemma {:induction false} MergeAllJoins(acc: seq<Board>, lists: seq<seq<Board>>)
    requires Normalized(acc)
    ensures Normalized(MergeAll(acc, lists))
    ensures ViewOf(MergeAll(acc, lists)) == Join(ViewOf(acc), ViewOfAll(lists))
    decreases |lists|
  {
    if lists == [] {
      assert ViewOfAll(lists) == View({}, {}, {}, {});
    } else {
      MergeJoins(acc, lists[0]);
      MergeAllJoins(Merge(acc, lists[0]), lists[1..]);
      ViewOfAllCons(lists[0], lists[1..]);
      assert lists == [lists[0]] + lists[1..];
      JoinLaws(ViewOf(acc), ViewOf(lists[0]), ViewOfAll(lists[1..]));
    }
  }

  lemma ViewOfAllByElements(xs: seq<seq<Board>>, ys: seq<seq<Board>>)
    requires forall l :: l in xs <==> l in ys
    ensures ViewOfAll(xs) == ViewOfAll(ys)
  {
  }

  /** The order and repetition in which learned lists are folded in do not matter, nor does their shape. */
  lemma MergeOrderIrrelevant(acc: seq<Board>, xs: seq<seq<Board>>, ys: seq<seq<Board>>)
    requires Normalized(acc)
    requires forall l :: l in xs <==> l in ys
    ensures MergeAll(acc, xs) == MergeAll(acc, ys)
    ensures Summary(MergeAll(acc, xs)) == Summary(MergeAll(acc, ys))
  {
    MergeAllJoins(acc, xs);
    MergeAllJoins(acc, ys);
    ViewOfAllByElements(xs, ys);
    NormalizedUnique(MergeAll(acc, xs), MergeAll(acc, ys));
  }

  // -------------------------------------------------------------------------
  // Reachability summary
  // -------------------------------------------------------------------------

  function AllEndpoints(boards: seq<Board>): seq<nat>
  {
    if boards == [] then [] else boards[0].endpoints + AllEndpoints(boards[1..])
  }

  function AllSources(boards: seq<Board>): seq<Text>
  {
    if boards == [] then [] else boards[0].sources + AllSources(boards[1..])
  }

  function Summary(boards: seq<Board>): (seq<nat>, seq<Text>)
  {
    (SortNats(AllEndpoints(boards)), SortTexts(AllSources(boards)))
  }

  lemma {:induction false} AllElements(boards: seq<Board>, e: nat, t: Text)
    ensures e in AllEndpoints(boards) <==> exists b :: b in boards && e in b.endpoints
    ensures t in AllSources(boards) <==> exists b :: b in boards && t in b.sources
  {
    if boards != [] {
      AllElements(boards[1..], e, t);
      assert boards == [boards[0]] + boards[1..];
      assert forall b :: b in boards <==> b == boards[0] || b in boards[1..];
    }
  }

  lemma SummaryElements(boards: seq<Board>, e: nat, t: Text)
    ensures e in Summary(boards).0 <==> exists s :: HasEndpoint(boards, s, e)
    ensures t in Summary(boards).1 <==> exists s :: HasSource(boards, s, t)
  {
    AllElements(boards, e, t);
    SortDedupElement(NatLess, AllEndpoints(boards), e);
    SortDedupElement(TextLess, AllSources(boards), t);
    forall b | b in boards && e in b.endpoints ensures HasEndpoint(boards, b.sender, e) {}
    forall b | b in boards && t in b.sources ensures HasSource(boards, b.sender, t) {}
  }

  /** Summarizing a merge is merging the summaries. */
  lemma SummaryOfMerge(a: seq<Board>, b: seq<Board>)
    requires Normalized(a)
    ensures Summary(Merge(a, b)) == (SortNats(Summary(a).0 + Summary(b).0), SortTexts(Summary(a).1 + Summary(b).1))
  {
    var m := Merge(a, b);
    NormalizedDistinct(a);
    TextOrder();
    SortDedupAscending(NatLess, AllEndpoints(m));
    SortDedupAscending(TextLess, AllSources(m));
    SortDedupAscending(NatLess, Summary(a).0 + Summary(b).0);
    SortDedupAscending(TextLess, Summary(a).1 + Summary(b).1);
    forall e: nat
      ensures e in Summary(m).0 <==> e in SortNats(Summary(a).0 + Summary(b).0)
    {
      SummaryOfMergeAt(a, b, e, []);
      SortDedupElement(NatLess, Summary(a).0 + Summary(b).0, e);
    }
    forall t: Text
      ensures t in Summary(m).1 <==> t in SortTexts(Summary(a).1 + Summary(b).1)
    {
      SummaryOfMergeAt(a, b, 0, t);
      SortDedupElement(TextLess, Summary(a).1 + Summary(b).1, t);
    }
    AscendingUnique(NatLess, Summary(m).0, SortNats(Summary(a).0 + Summary(b).0));
    AscendingUnique(TextLess, Summary(m).1, SortTexts(Summary(a).1 + Summary(b).1));
  }

  lemma SummaryOfMergeAt(a: seq<Board>, b: seq<Board>, e: nat, t: Text)
    requires DistinctSenders(a)
    ensures e in Summary(Merge(a, b)).0 <==> e in Summary(a).0 || e in Summary(b).0
    ensures t in Summary(Merge(a, b)).1 <==> t in Summary(a).1 || t in Summary(b).1
  {
    var m := Merge(a, b);
    SummaryElements(m, e, t);
    SummaryElements(a, e, t);
    SummaryElements(b, e, t);
    forall s
      ensures HasEndpoint(m, s, e) <==> HasEndpoint(a, s, e) || HasEndpoint(b, s, e)
      ensures HasSource(m, s, t) <==> HasSource(a, s, t) || HasSource(b, s, t)
    {
      MergeFacts(a, b, s, e, t);
      ViewFacts(m, s, e, t);
      ViewFacts(a, s, e, t);
      ViewFacts(b, s, e, t);
    }
  }

  // -------------------------------------------------------------------------
  // Normalization, and the two operations in place
  // -------------------------------------------------------------------------

  function FirstOf(boards: seq<Board>, s: Text): (b: Board)
    requires s in Senders(boards)
    ensures b in boards && b.sender == s
  {
    if boards[0].sender == s then boards[0]
    else
      assert s in Senders(boards[1..]) by {
        assert Senders(boards) == [boards[0].sender] + Senders(boards[1..]);
      }
      FirstOf(boards[1..], s)
  }

  /** Sorted by sender, one board of each. */
  function SortBoards(boards: seq<Board>): (r: seq<Board>)
  {
    var keys := SortTexts(Senders(boards));
    assert forall s :: s in keys ==> s in Senders(boards) by {
      forall s | s in keys ensures s in Senders(boards) { SortDedupElement(TextLess, Senders(boards), s); }
    }
    seq(|keys|, i requires 0 <= i < |keys| => FirstOf(boards, keys[i]))
  }

  lemma SortBoardsMeaning(boards: seq<Board>)
    ensures var r := SortBoards(boards);
            && Ascending(TextLess, Senders(r))
            && (forall s :: s in Senders(r) <==> s in Senders(boards))
            && (forall b :: b in r ==> b in boards)
  {
    var r, keys := SortBoards(boards), SortTexts(Senders(boards));
    TextOrder();
    SortDedupMeaning(TextLess, Senders(boards));
    assert Senders(r) == keys;
    forall b | b in r ensures b in boards {
      var i :| 0 <= i < |keys| && b == r[i];
      assert b == FirstOf(boards, keys[i]);
    }
  }

  lemma NormalFormNormalized(boards: seq<Board>, out: seq<Board>)
    requires NormalFormOf(boards, out)
    ensures Normalized(out)
  {
    forall o | o in out ensures Clean(o) == o {
      var b :| b in boards && o == Clean(b);
      CleanIdempotent(b);
    }
  }

  /** All boards of one sender say the same. */
  ghost predicate SendersAgree(boards: seq<Board>)
  {
    forall b, c :: b in boards && c in boards && b.sender == c.sender ==> Clean(b) == Clean(c)
  }

  lemma {:induction false} DistinctSendersAgree(boards: seq<Board>)
    requires DistinctSenders(boards)
    ensures SendersAgree(boards)
  {
    hide Clean;
    forall b, c | b in boards && c in boards && b.sender == c.sender ensures b == c {
      var i :| 0 <= i < |boards| && boards[i] == b;
      var j :| 0 <= j < |boards| && boards[j] == c;
    }
  }

  lemma {:induction false} SortedIsNormalForm(boards: seq<Board>, cleaned: seq<Board>)
    requires forall s :: s in Senders(cleaned) <==> s in Senders(boards)
    requires forall c :: c in cleaned ==> exists b :: b in boards && c == Clean(b)
    ensures NormalFormOf(boards, SortBoards(cleaned))
  {
    hide Clean, SortBoards;
    SortBoardsMeaning(cleaned);
  }

  function CleanAll(boards: seq<Board>): (r: seq<Board>)
    ensures |r| == |boards| && Senders(r) == Senders(boards)
    ensures forall i :: 0 <= i < |boards| ==> r[i] == Clean(boards[i])
  {
    seq(|boards|, i requires 0 <= i < |boards| => Clean(boards[i]))
  }

  lemma {:induction false} FirstSurvives(boards: seq<Board>)
    requires |boards| > 0
    ensures boards[0] in SortBoards(boards)
  {
    var s, keys := boards[0].sender, SortTexts(Senders(boards));
    assert Senders(boards)[0] == s;
    SortDedupElement(TextLess, Senders(boards), s);
    var i :| 0 <= i < |keys| && keys[i] == s;
    assert SortBoards(boards)[i] == FirstOf(boards, s) == boards[0];
  }

  /** Any board of the list can be the one that survives. */
  lemma {:induction false} NormalFormWith(boards: seq<Board>, b: Board) returns (out: seq<Board>)
    requires b in boards
    ensures NormalFormOf(boards, out) && Clean(b) in out
  {
    hide SortBoards, NormalFormOf;
    var cleaned := [Clean(b)] + CleanAll(boards);
    out := SortBoards(cleaned);
    FirstSurvives(cleaned);
    CleanFirstSenders(boards, b);
    forall c | c in cleaned ensures exists x :: x in boards && c == Clean(x) {
      var i :| 0 <= i < |cleaned| && cleaned[i] == c;
      assert if i == 0 then c == Clean(b) else boards[i - 1] in boards && c == Clean(boards[i - 1]);
    }
    SortedIsNormalForm(boards, cleaned);
  }

  lemma {:induction false} CleanFirstSenders(boards: seq<Board>, b: Board)
    requires b in boards
    ensures forall s :: s in Senders([Clean(b)] + CleanAll(boards)) <==> s in Senders(boards)
  {
    var k :| 0 <= k < |boards| && boards[k] == b;
    assert Senders(boards)[k] == b.sender;
    assert Senders([Clean(b)] + CleanAll(boards)) == [b.sender] + Senders(boards);
  }

  /** If two normal forms of a list are always equal, no two boards of one sender differ. */
  lemma {:induction false} OneNormalForm(boards: seq<Board>, b: Board, c: Board)
    requires forall x, y :: NormalFormOf(boards, x) && NormalFormOf(boards, y) ==> x == y
    requires b in boards && c in boards && b.sender == c.sender
    ensures Clean(b) == Clean(c)
  {
    hide NormalFormOf;
    var x := NormalFormWith(boards, b);
    var y := NormalFormWith(boards, c);
    assert x == y;
    NormalFormNormalized(boards, x);
    SameSenderSameBoard(x, Clean(b), Clean(c));
  }

  /**
    Exactly when normalization loses nothing, and exactly when its outcome does not depend on the unstable
    sort: all boards of one sender must say the same.
   */
  lemma {:induction false} NormalFormKeepsView(boards: seq<Board>)
    ensures (forall out :: NormalFormOf(boards, out) ==> ViewOf(out) == ViewOf(boards)) <==> SendersAgree(boards)
    ensures (forall a, b :: NormalFormOf(boards, a) && NormalFormOf(boards, b) ==> a == b) <==> SendersAgree(boards)
  {
    hide NormalFormOf, ViewOf, Clean;
    if SendersAgree(boards) {
      forall out | NormalFormOf(boards, out) ensures ViewOf(out) == ViewOf(boards) && Normalized(out) {
        NormalFormView(boards, out);
        NormalFormNormalized(boards, out);
      }
    }
    if forall out :: NormalFormOf(boards, out) ==> ViewOf(out) == ViewOf(boards) {
      forall a, b | NormalFormOf(boards, a) && NormalFormOf(boards, b) ensures a == b {
        NormalFormNormalized(boards, a);
        NormalFormNormalized(boards, b);
        NormalizedUnique(a, b);
      }
    }
    if forall a, b :: NormalFormOf(boards, a) && NormalFormOf(boards, b) ==> a == b {
      forall b, c | b in boards && c in boards && b.sender == c.sender ensures Clean(b) == Clean(c) {
        OneNormalForm(boards, b, c);
      }
    }
  }

  lemma NormalFormKeepsBoard(boards: seq<Board>, out: seq<Board>, b: Board)
    requires NormalFormOf(boards, out) && SendersAgree(boards) && b in boards
    ensures Clean(b) in out
  {
    var i :| 0 <= i < |boards| && boards[i] == b;
    assert b.sender == Senders(boards)[i];
    assert b.sender in Senders(out);
    var k :| 0 <= k < |Senders(out)| && Senders(out)[k] == b.sender;
    assert out[k] in out;
    var c :| c in boards && out[k] == Clean(c);
    var j :| 0 <= j < |boards| && boards[j] == c;
  }

  lemma NormalFormView(boards: seq<Board>, out: seq<Board>)
    requires NormalFormOf(boards, out) && SendersAgree(boards)
    ensures ViewOf(out) == ViewOf(boards)
  {
    forall b | b in boards ensures Clean(b) in out {
      NormalFormKeepsBoard(boards, out, b);
    }
    forall s, e: nat, t ensures SameFacts(boards, out, s, e, t) {
      NormalFormFacts(boards, out, s, e, t);
    }
    ViewsEqual(boards, out);
  }

  /** Both lists agree on one endpoint, one time source and one peer of a sender. */
  ghost predicate SameFacts(a: seq<Board>, b: seq<Board>, s: Text, e: nat, t: Text)
  {
    && (HasEndpoint(a, s, e) <==> HasEndpoint(b, s, e))
    && (HasSource(a, s, t) <==> HasSource(b, s, t))
    && (s != t ==> (HasPeer(a, s, t) <==> HasPeer(b, s, t)))
  }

  lemma NormalFormFacts(boards: seq<Board>, out: seq<Board>, s: Text, e: nat, t: Text)
    requires forall o :: o in out ==> exists b :: b in boards && o == Clean(b)
    requires forall b :: b in boards ==> Clean(b) in out
    ensures SameFacts(boards, out, s, e, t)
  {
    forall b | b in boards
      ensures e in Clean(b).endpoints <==> e in b.endpoints
      ensures t in Clean(b).sources <==> t in b.sources
      ensures t in Clean(b).connections <==> t in b.connections && t != b.sender
    {
      CleanMeaning(b);
    }
  }

  lemma ViewsEqual(a: seq<Board>, b: seq<Board>)
    requires forall s :: s in Senders(a) <==> s in Senders(b)
    requires forall s, e: nat, t :: SameFacts(a, b, s, e, t)
    ensures ViewOf(a) == ViewOf(b)
  {
    var v, w := ViewOf(a), ViewOf(b);
    forall s ensures s in v.senders <==> s in w.senders {
      SendersView(a, s);
      SendersView(b, s);
    }
    forall s, e: nat ensures (s, e) in v.endpoints <==> (s, e) in w.endpoints {
      assert SameFacts(a, b, s, e, []);
      ViewFacts(a, s, e, []);
      ViewFacts(b, s, e, []);
    }
    forall s, t
      ensures (s, t) in v.sources <==> (s, t) in w.sources
      ensures (s, t) in v.links <==> (s, t) in w.links
    {
      assert SameFacts(a, b, s, 0, t);
      ViewFacts(a, s, 0, t);
      ViewFacts(b, s, 0, t);
    }
    assert v.endpoints == w.endpoints;
    assert v.sources == w.sources;
    assert v.links == w.links;
  }

  method NormalizeTopologyBoards(boards: seq<Board>) returns (out: seq<Board>)
    ensures NormalFormOf(boards, out) && Normalized(out)
  {
    var cleaned: seq<Board> := [];
    for i := 0 to |boards|
      invariant cleaned == CleanAll(boards)[..i]
    {
      cleaned := cleaned + [Clean(boards[i])];
    }
    out := SortBoards(cleaned);
    assert cleaned == CleanAll(boards);
    forall c | c in cleaned ensures exists b :: b in boards && c == Clean(b) {
      var k :| 0 <= k < |cleaned| && cleaned[k] == c;
      assert boards[k] in boards;
    }
    SortedIsNormalForm(boards, cleaned);
    NormalFormNormalized(boards, out);
  }

  method MergeTopologyBoards(dst: seq<Board>, src: seq<Board>) returns (out: seq<Board>)
    ensures out == Merge(dst, src)
  {
    var merged: map<Text, Board> := map[];
    for i := 0 to |dst|
      invariant merged == Collect(dst[..i])
    {
      assert dst[..i + 1][..i] == dst[..i];
      merged := merged[dst[i].sender := dst[i]];
    }
    assert dst[..|dst|] == dst;
    for i := 0 to |src|
      invariant Absorb(merged, src[i..]) == Absorb(Collect(dst), src)
    {
      assert src[i..][0] == src[i] && src[i..][1..] == src[i + 1..];
      merged := Extended(merged, src[i]);
    }
    assert src[|src|..] == [];
    MergeKeys(dst, src);
    out := InOrder(merged, SortTexts(Senders(dst) + Senders(src)));
  }
}
