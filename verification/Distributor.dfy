/** The request distributor of the light client: a queue of requests in order of creation, each
    with a channel that is told which peer the request was sent to. */
module Distributors {
  import opened Options
  import opened Sequences
  import opened Sets

  type Peer = int
  type RequestId = int
  type ChannelId = int

  /** A request has no order number before it is queued for the first time, and no channel while it
      is not waiting. */
  datatype Request = Request(order: nat, sentChn: Option<ChannelId>)

  /** A channel with room for one peer. */
  datatype Channel = Channel(open: bool, peers: seq<Peer>)

  type Requests = map<RequestId, Request>
  type Channels = map<ChannelId, Channel>

  function OrderOf(reqs: Requests, r: RequestId): nat { if r in reqs then reqs[r].order else 0 }

  function SentChn(reqs: Requests, r: RequestId): Option<ChannelId> { if r in reqs then reqs[r].sentChn else None }

  // ---- the queue ---------------------------------------------------------------------------------

  ghost predicate Sorted(q: seq<RequestId>, reqs: Requests) {
    forall i, j :: 0 <= i < j < |q| ==> OrderOf(reqs, q[i]) < OrderOf(reqs, q[j])
  }

  ghost predicate Numbered(q: seq<RequestId>, reqs: Requests, last: nat) {
    && (forall r :: r in reqs ==> OrderOf(reqs, r) <= last)
    && (forall r, s :: r in reqs && s in reqs && r != s && OrderOf(reqs, r) != 0 ==>
          OrderOf(reqs, r) != OrderOf(reqs, s))
    && (forall i :: 0 <= i < |q| ==> q[i] in reqs && OrderOf(reqs, q[i]) != 0)
  }

  function With(q: seq<RequestId>, i: nat, r: RequestId): seq<RequestId>
    requires i <= |q|
  {
    q[..i] + [r] + q[i..]
  }

  lemma SortedWithout(q: seq<RequestId>, reqs: Requests, i: nat)
    requires Sorted(q, reqs) && i < |q|
    ensures Sorted(Omit(q, i), reqs) && q[i] !in Omit(q, i)
    ensures forall r :: r in Omit(q, i) ==> r in q
    ensures forall r :: r in q && r != q[i] ==> r in Omit(q, i)
  {
    var t := Omit(q, i);
    assert forall k :: 0 <= k < |t| ==> t[k] == q[if k < i then k else k + 1];
    forall r | r in q && r != q[i] ensures r in t {
      var k :| 0 <= k < |q| && q[k] == r;
      assert r == t[if k < i then k else k - 1];
    }
  }

  lemma SortedWith(q: seq<RequestId>, reqs: Requests, i: nat, r: RequestId)
    requires Sorted(q, reqs) && i <= |q|
    requires forall k :: 0 <= k < i ==> OrderOf(reqs, q[k]) < OrderOf(reqs, r)
    requires i < |q| ==> OrderOf(reqs, r) < OrderOf(reqs, q[i])
    ensures Sorted(With(q, i, r), reqs)
  {}

  lemma WithMembers(q: seq<RequestId>, i: nat, r: RequestId)
    requires i <= |q|
    ensures forall x :: x in With(q, i, r) <==> x in q || x == r
  {}

  // ---- channels ----------------------------------------------------------------------------------

  /** Closed channels stay as they are, and no channel loses or exchanges a peer. */
  ghost predicate Grown(a: Channels, b: Channels) {
    forall c :: c in a ==> c in b && (!a[c].open ==> b[c] == a[c]) && a[c].peers <= b[c].peers
  }

  predicate Waiting(chans: Channels, c: ChannelId) { c in chans && chans[c] == Channel(true, []) }

  /** Every channel has been given at most one peer. The channel of a waiting request is its own, is
      open and empty. */
  ghost predicate Wired(q: seq<RequestId>, reqs: Requests, chans: Channels) {
    && (forall c :: c in chans ==> |chans[c].peers| <= 1)
    && (forall r :: SentChn(reqs, r).Some? ==> r in q && Waiting(chans, SentChn(reqs, r).value))
    && (forall r, s :: r != s && SentChn(reqs, r).Some? ==> SentChn(reqs, r) != SentChn(reqs, s))
  }

  /** A request leaves the queue: its channel gets the peer it was sent to, if any, and is closed. */
  lemma SettleKeeps(q: seq<RequestId>, reqs: Requests, chans: Channels, last: nat, i: nat, peers: seq<Peer>)
    requires Sorted(q, reqs) && Numbered(q, reqs, last) && Wired(q, reqs, chans)
    requires i < |q| && SentChn(reqs, q[i]).Some? && |peers| <= 1
    ensures var c, reqs' := SentChn(reqs, q[i]).value, reqs[q[i] := reqs[q[i]].(sentChn := None)];
            var chans' := chans[c := Channel(false, peers)];
            && Sorted(Omit(q, i), reqs') && Numbered(Omit(q, i), reqs', last) && Wired(Omit(q, i), reqs', chans')
            && Grown(chans, chans')
  {
    var r, c := q[i], SentChn(reqs, q[i]).value;
    var reqs' := reqs[r := reqs[r].(sentChn := None)];
    var q' := Omit(q, i);
    SortedWithout(q, reqs, i);
    hide Omit;
    assert forall x :: OrderOf(reqs', x) == OrderOf(reqs, x);
    assert forall x :: SentChn(reqs', x) == if x == r then None else SentChn(reqs, x);
    forall k | 0 <= k < |q'| ensures q'[k] in reqs' && OrderOf(reqs', q'[k]) != 0 { assert q'[k] in q; }
  }

  /** A request enters the queue with a new channel. */
  lemma QueueKeeps(q: seq<RequestId>, reqs: Requests, chans: Channels, last: nat, i: nat, r: RequestId, c: ChannelId)
    requires Numbered(q, reqs, last) && Wired(q, reqs, chans) && c !in chans && r !in q
    requires i <= |q| && r in reqs && OrderOf(reqs, r) != 0 && Sorted(With(q, i, r), reqs)
    ensures var reqs' := reqs[r := reqs[r].(sentChn := Some(c))];
            var chans' := chans[c := Channel(true, [])];
            && Sorted(With(q, i, r), reqs') && Numbered(With(q, i, r), reqs', last)
            && Wired(With(q, i, r), reqs', chans')
            && Grown(chans, chans') && forall x :: x in With(q, i, r) <==> x in q || x == r
  {
    hide With;
    var reqs' := reqs[r := reqs[r].(sentChn := Some(c))];
    var q' := With(q, i, r);
    WithMembers(q, i, r);
    assert forall x :: OrderOf(reqs', x) == OrderOf(reqs, x);
    assert forall x :: SentChn(reqs', x) == if x == r then Some(c) else SentChn(reqs, x);
    forall k | 0 <= k < |q'| ensures q'[k] in reqs' && OrderOf(reqs', q'[k]) != 0 { assert q'[k] in q'; }
  }

  /** A request gets the next order number when it is queued for the first time. */
  lemma NumberKeeps(q: seq<RequestId>, reqs: Requests, chans: Channels, last: nat, r: RequestId)
    requires Sorted(q, reqs) && Numbered(q, reqs, last) && Wired(q, reqs, chans) && r !in q && OrderOf(reqs, r) == 0
    ensures var reqs' := reqs[r := Request(last + 1, None)];
            && Sorted(q, reqs') && Numbered(q, reqs', last + 1) && Wired(q, reqs', chans)
            && forall x :: x != r ==> OrderOf(reqs', x) == OrderOf(reqs, x) && SentChn(reqs', x) == SentChn(reqs, x)
  {
    var reqs' := reqs[r := Request(last + 1, None)];
    assert forall x :: SentChn(reqs', x) == if x == r then None else SentChn(reqs, x);
    assert forall x :: OrderOf(reqs', x) == if x == r then last + 1 else OrderOf(reqs, x);
    forall k | 0 <= k < |q| ensures q[k] in reqs && OrderOf(reqs', q[k]) == OrderOf(reqs, q[k]) { assert q[k] in q; }
  }

  /** Where a request belongs in the queue. */
  method Place(q: seq<RequestId>, reqs: Requests, ghost last: nat, r: RequestId) returns (i: nat)
    requires Sorted(q, reqs) && Numbered(q, reqs, last) && r !in q && r in reqs && OrderOf(reqs, r) != 0
    ensures i <= |q| && Sorted(With(q, i, r), reqs)
  {
    i := |q|;
    if q != [] && OrderOf(reqs, r) <= OrderOf(reqs, q[|q| - 1]) {
      i := 0;
      while OrderOf(reqs, q[i]) < OrderOf(reqs, r)
        invariant 0 <= i < |q| && forall k :: 0 <= k < i ==> OrderOf(reqs, q[k]) < OrderOf(reqs, r)
        decreases |q| - i
      {
        i := i + 1;
      }
      assert q[i] in q;
    }
    SortedWith(q, reqs, i, r);
  }

  lemma ChannelIsWaiting(q: seq<RequestId>, reqs: Requests, chans: Channels, r: RequestId)
    requires Wired(q, reqs, chans) && SentChn(reqs, r).Some?
    ensures r in q && Waiting(chans, SentChn(reqs, r).value)
  {}

  // ---- choosing a request ------------------------------------------------------------------------

  /** What the peers say at one moment: which requests each would take, and after what wait. */
  datatype World = World(serves: (Peer, RequestId) -> bool, wait: (Peer, RequestId) -> nat)

  datatype Offer = Offer(peer: Peer, req: RequestId)

  /** The request at i is the first in the queue that the peer can serve. */
  ghost predicate Earliest(w: World, q: seq<RequestId>, p: Peer, i: int) {
    0 <= i < |q| && w.serves(p, q[i]) && forall j :: 0 <= j < i ==> !w.serves(p, q[j])
  }

  /** first holds, for every peer that can serve one of the first n requests, the earliest of these. */
  ghost predicate Firsts(w: World, q: seq<RequestId>, peers: set<Peer>, n: int, first: map<Peer, int>) {
    && first.Keys <= peers
    && (forall p :: p in first ==> Earliest(w, q, p, first[p]) && first[p] < n)
    && (forall p, j :: p in peers && p !in first && 0 <= j < n && j < |q| ==> !w.serves(p, q[j]))
  }

  ghost predicate Holds(w: World, q: seq<RequestId>, first: map<Peer, int>, o: Offer) {
    o.peer in first && 0 <= first[o.peer] < |q| && q[first[o.peer]] == o.req
  }

  /** ready has peers that need not wait for their earliest request, and some if there are any. */
  ghost predicate Readies(w: World, q: seq<RequestId>, first: map<Peer, int>, ready: seq<Offer>) {
    && (forall o :: o in ready ==> Holds(w, q, first, o) && w.wait(o.peer, o.req) == 0)
    && (ready == [] ==> forall p :: p in first ==> 0 <= first[p] < |q| && w.wait(p, q[first[p]]) != 0)
  }

  /** best has the shortest wait among those that have to wait. */
  ghost predicate Shortest(w: World, q: seq<RequestId>, first: map<Peer, int>, best: Option<Offer>) {
    && (best.Some? ==> Holds(w, q, first, best.value) && w.wait(best.value.peer, best.value.req) != 0)
    && (forall p :: p in first && 0 <= first[p] < |q| && w.wait(p, q[first[p]]) != 0 ==>
                      best.Some? && w.wait(best.value.peer, best.value.req) <= w.wait(p, q[first[p]]))
  }

  lemma EarliestNow(w: World, q: seq<RequestId>, p: Peer, i: nat)
    requires i < |q| && w.serves(p, q[i]) && forall j :: 0 <= j < i ==> !w.serves(p, q[j])
    ensures Earliest(w, q, p, i)
  {}

  lemma NewFirst(w: World, q: seq<RequestId>, first: map<Peer, int>, ready: seq<Offer>, best: Option<Offer>, p: Peer,
                 i: nat)
    requires Readies(w, q, first, ready) && Shortest(w, q, first, best) && p !in first && i < |q|
    ensures var first', o := first[p := i], Offer(p, q[i]);
            && Readies(w, q, first', if w.wait(p, q[i]) == 0 then ready + [o] else ready)
            && Shortest(w, q, first',
                        if w.wait(p, q[i]) != 0
                           && (best == None || w.wait(p, q[i]) < w.wait(best.value.peer, best.value.req))
                        then Some(o) else best)
  {}

  /** Asks every peer that has no request yet about the request at i. */
  method AskPeers(w: World, q: seq<RequestId>, peers: set<Peer>, i: nat, checked: set<Peer>, ready: seq<Offer>,
                  best: Option<Offer>, ghost first: map<Peer, int>)
    returns (canSend: bool, checked': set<Peer>, ready': seq<Offer>, best': Option<Offer>, ghost first': map<Peer, int>)
    requires i < |q| && checked == first.Keys
    requires Firsts(w, q, peers, i, first) && Readies(w, q, first, ready) && Shortest(w, q, first, best)
    ensures checked' == first'.Keys && Firsts(w, q, peers, i + 1, first')
    ensures Readies(w, q, first', ready') && Shortest(w, q, first', best')
    ensures forall p :: p in first ==> p in first' && first'[p] == first[p]
    ensures if canSend then exists p :: p in first' && first'[p] == i
            else checked' == checked && first' == first && ready' == ready && best' == best
  {
    hide Readies, Shortest, Earliest;
    canSend, checked', ready', best', first' := false, checked, ready, best, first;
    var todo := peers;
    while todo != {}
      invariant todo <= peers && checked' == first'.Keys && checked' <= peers
      invariant forall p :: p in first ==> p in first' && first'[p] == first[p]
      invariant forall p :: p in first' ==> Earliest(w, q, p, first'[p]) && first'[p] <= i
      invariant forall p, j :: p in peers && p !in first' && 0 <= j < i ==> !w.serves(p, q[j])
      invariant forall p :: p in peers && p !in first' && p !in todo ==> !w.serves(p, q[i])
      invariant Readies(w, q, first', ready') && Shortest(w, q, first', best')
      invariant if canSend then exists p :: p in first' && first'[p] == i
                else checked' == checked && first' == first && ready' == ready && best' == best
    {
      EmptyOrMember(todo);
      var p :| p in todo;
      todo := todo - {p};
      if p !in checked' && w.serves(p, q[i]) {
        canSend := true;
        EarliestNow(w, q, p, i);
        NewFirst(w, q, first', ready', best', p, i);
        if w.wait(p, q[i]) == 0 {
          ready' := ready' + [Offer(p, q[i])];
        } else if best' == None || w.wait(p, q[i]) < w.wait(best'.value.peer, best'.value.req) {
          best' := Some(Offer(p, q[i]));
        }
        checked', first' := checked' + {p}, first'[p := i];
        assert first'[p] == i;
      }
    }
  }

  /** The first n requests have been looked at; if there are any, some peer can serve the front one. */
  ghost predicate Scanning(w: World, q: seq<RequestId>, peers: set<Peer>, n: int, first: map<Peer, int>,
                           ready: seq<Offer>, best: Option<Offer>) {
    && Firsts(w, q, peers, n, first) && Readies(w, q, first, ready) && Shortest(w, q, first, best)
    && (n > 0 ==> exists p :: p in first && first[p] == 0)
  }

  lemma ScanningStart(w: World, q: seq<RequestId>, peers: set<Peer>)
    ensures Scanning(w, q, peers, 0, map[], [], None)
  {}

  lemma ScanningParts(w: World, q: seq<RequestId>, peers: set<Peer>, n: int, first: map<Peer, int>,
                      ready: seq<Offer>, best: Option<Offer>)
    requires Scanning(w, q, peers, n, first, ready, best)
    ensures Firsts(w, q, peers, n, first) && Readies(w, q, first, ready) && Shortest(w, q, first, best)
    ensures n > 0 ==> exists p :: p in first && first[p] == 0
  {}

  lemma ScanningNext(w: World, q: seq<RequestId>, peers: set<Peer>, n: nat, first: map<Peer, int>, first': map<Peer,
                     int>,
                     ready: seq<Offer>, best: Option<Offer>, canSend: bool)
    requires n > 0 ==> exists p :: p in first && first[p] == 0
    requires Firsts(w, q, peers, n + 1, first') && Readies(w, q, first', ready) && Shortest(w, q, first', best)
    requires forall p :: p in first ==> p in first' && first'[p] == first[p]
    requires canSend ==> exists p :: p in first' && first'[p] == n
    requires n == 0 ==> canSend
    ensures Scanning(w, q, peers, n + 1, first', ready, best)
  {}

  /** All requests have been looked at, so every peer has its earliest one. */
  lemma ScanningDone(w: World, q: seq<RequestId>, peers: set<Peer>, n: nat, first: map<Peer, int>,
                     ready: seq<Offer>, best: Option<Offer>)
    requires Scanning(w, q, peers, n, first, ready, best) && n <= |q| && ((peers == {} && n != 0) || n == |q|)
    ensures forall p, j :: p in peers && Earliest(w, q, p, j) ==> p in first && first[p] == j
    ensures forall o :: o in ready || best == Some(o) ==>
              o.peer in first && o.peer in peers && Earliest(w, q, o.peer, first[o.peer]) && q[first[o.peer]] == o.req
    ensures forall o :: o in ready ==> w.wait(o.peer, o.req) == 0
    ensures best.Some? && ready == [] ==>
              forall p, j :: p in peers && Earliest(w, q, p, j) ==>
                w.wait(best.value.peer, best.value.req) <= w.wait(p, q[j])
    ensures q != [] ==> exists p :: p in peers && w.serves(p, q[0])
    ensures q != [] <==> ready != [] || best.Some?
  {
    forall p, j | p in peers && Earliest(w, q, p, j) ensures p in first && first[p] == j {
      assert Firsts(w, q, peers, n, first);
    }
    if ready != [] { assert ready[0] in ready; }
  }

  /** Nobody can serve the first request. */
  lemma UnservedFront(w: World, q: seq<RequestId>, peers: set<Peer>)
    requires q != [] && Firsts(w, q, peers, 1, map[])
    ensures forall p :: p in peers ==> !w.serves(p, q[0])
  {}

  lemma GrownSame(a: Channels)
    ensures Grown(a, a)
  {}

  lemma GrownTwice(a: Channels, b: Channels, c: Channels)
    requires Grown(a, b) && Grown(b, c)
    ensures Grown(a, c)
  {}

  /** There is nothing to do, or nothing before the given wait is over. */
  ghost predicate Rested(w: World, q: seq<RequestId>, peers: set<Peer>, wait: nat) {
    if wait == 0 then q == []
    else forall p, j :: p in peers && Earliest(w, q, p, j) ==> wait <= w.wait(p, q[j])
  }

  /** The channel of the request has been told the peer, and closed. */
  ghost predicate Given(reqs: Requests, chans: Channels, o: Offer) {
    var c := SentChn(reqs, o.req);
    c.Some? && c.value in chans && chans[c.value] == Channel(false, [o.peer])
  }

  /** A peer that can start on the request at once has been told to. */
  ghost predicate Served(w: World, peers: set<Peer>, reqs: Requests, chans: Channels, r: RequestId) {
    exists p :: p in peers && w.serves(p, r) && w.wait(p, r) == 0 && Given(reqs, chans, Offer(p, r))
  }

  /** No peer can serve the request, and its channel is closed without one. */
  ghost predicate GivenUp(w: World, peers: set<Peer>, reqs: Requests, chans: Channels, r: RequestId) {
    var c := SentChn(reqs, r);
    && (forall p :: p in peers ==> !w.serves(p, r))
    && c.Some? && c.value in chans && chans[c.value] == Channel(false, [])
  }

  ghost predicate Left(w: World, peers: set<Peer>, reqs: Requests, chans: Channels, r: RequestId) {
    Served(w, peers, reqs, chans, r) || GivenUp(w, peers, reqs, chans, r)
  }

  /** What is still queued was queued before and waits on the same channel. */
  ghost predicate Remain(q0: seq<RequestId>, reqs0: Requests, q: seq<RequestId>, reqs: Requests) {
    forall r :: r in q ==> r in q0 && SentChn(reqs, r) == SentChn(reqs0, r)
  }

  lemma LeftStays(w: World, peers: set<Peer>, reqs0: Requests, reqs: Requests, a: Channels, b: Channels, r: RequestId)
    requires Grown(a, b) && SentChn(reqs0, r) == SentChn(reqs, r)
    ensures Left(w, peers, reqs, a, r) ==> Left(w, peers, reqs0, b, r)
    ensures GivenUp(w, peers, reqs, a, r) ==> GivenUp(w, peers, reqs0, b, r)
  {
    if Served(w, peers, reqs, a, r) {
      var p :| p in peers && w.serves(p, r) && w.wait(p, r) == 0 && Given(reqs, a, Offer(p, r));
      var c := SentChn(reqs, Offer(p, r).req).value;
      assert c in a && !a[c].open;
      assert Given(reqs0, b, Offer(p, r));
    }
    if GivenUp(w, peers, reqs, a, r) {
      var c := SentChn(reqs, r).value;
      assert c in a && !a[c].open;
    }
  }

  /** The next request in front is given up, too. */
  lemma GivenUpNext(w: World, peers: set<Peer>, reqs: Requests, a: Channels, b: Channels, q: seq<RequestId>, n: nat)
    requires n < |q| && Grown(a, b) && forall j :: 0 <= j < n ==> GivenUp(w, peers, reqs, a, q[j])
    requires var c := SentChn(reqs, q[n]); c.Some? && c.value in b && b[c.value] == Channel(false, [])
    requires forall p :: p in peers ==> !w.serves(p, q[n])
    ensures forall j :: 0 <= j < n + 1 ==> GivenUp(w, peers, reqs, b, q[j])
  {
    hide Grown;
    forall j | 0 <= j < n ensures GivenUp(w, peers, reqs, b, q[j]) { LeftStays(w, peers, reqs, reqs, a, b, q[j]); }
  }

  /** Everything that has gone from q0 has left at some moment up to the last. */
  ghost predicate AllLeft(worlds: nat -> World, last: nat, peers: set<Peer>, q0: seq<RequestId>, reqs0: Requests,
                          q: seq<RequestId>, chans: Channels) {
    forall r :: r in q0 && r !in q ==> exists k: nat :: k <= last && Left(worlds(k), peers, reqs0, chans, r)
  }

  lemma AllLeftStep(worlds: nat -> World, k: nat, peers: set<Peer>, q0: seq<RequestId>, reqs0: Requests,
                    q1: seq<RequestId>, reqs1: Requests, chans1: Channels, q: seq<RequestId>, chans: Channels)
    requires Remain(q0, reqs0, q1, reqs1) && Grown(chans1, chans)
    requires k == 0 ==> q1 == q0
    requires k > 0 ==> AllLeft(worlds, k - 1, peers, q0, reqs0, q1, chans1)
    requires forall r :: r in q1 && r !in q ==> Left(worlds(k), peers, reqs1, chans, r)
    ensures AllLeft(worlds, k, peers, q0, reqs0, q, chans)
  {
    hide Left, Grown;
    forall r | r in q0 && r !in q ensures exists k': nat :: k' <= k && Left(worlds(k'), peers, reqs0, chans, r) {
      if r in q1 {
        GrownSame(chans);
        LeftStays(worlds(k), peers, reqs0, reqs1, chans, chans, r);
      } else {
        var j: nat :| j <= k - 1 && Left(worlds(j), peers, reqs0, chans1, r);
        LeftStays(worlds(j), peers, reqs0, reqs0, chans1, chans, r);
      }
    }
  }

  lemma RemainTwice(q0: seq<RequestId>, reqs0: Requests, q1: seq<RequestId>, reqs1: Requests,
                    q2: seq<RequestId>, reqs2: Requests)
    requires Remain(q0, reqs0, q1, reqs1) && Remain(q1, reqs1, q2, reqs2)
    ensures Remain(q0, reqs0, q2, reqs2)
  {}

  /** Requests that nobody can serve do not come before the earliest one. */
  lemma EarliestBefore(w: World, q: seq<RequestId>, dropped: nat, p: Peer, i: int, peers: set<Peer>)
    requires dropped <= |q| && Earliest(w, q[dropped..], p, i) && p in peers
    requires forall p, j :: p in peers && 0 <= j < dropped ==> !w.serves(p, q[j])
    ensures Earliest(w, q, p, i + dropped) && q[i + dropped] == q[dropped..][i]
  {
    forall j | 0 <= j < i + dropped ensures !w.serves(p, q[j]) {
      if dropped <= j { assert q[j] == q[dropped..][j - dropped]; }
    }
  }

  lemma SuffixOf(q: seq<RequestId>, n: nat, r: RequestId)
    requires n <= |q| && r in q[n..]
    ensures r in q
  {}

  lemma UnservedBefore(w: World, peers: set<Peer>, reqs: Requests, chans: Channels, q: seq<RequestId>, n: nat)
    requires n <= |q| && forall j :: 0 <= j < n ==> GivenUp(w, peers, reqs, chans, q[j])
    ensures forall p, j :: p in peers && 0 <= j < n ==> !w.serves(p, q[j])
  {
    forall p, j | p in peers && 0 <= j < n ensures !w.serves(p, q[j]) { assert GivenUp(w, peers, reqs, chans, q[j]); }
  }

  lemma RemainAsIs(q: seq<RequestId>, reqs: Requests)
    ensures Remain(q, reqs, q, reqs)
  {}

  lemma OmitOthers(s: seq<RequestId>, i: nat, j: nat)
    requires i < |s| && j < |s|
    ensures i != j ==> s[j] in Omit(s, i)
  {
    if j < i { assert Omit(s, i)[j] == s[j]; }
    if i < j { assert Omit(s, i)[j - 1] == s[j]; }
  }

  /** After one round: what is gone from the queue was given up, or is the one sent. */
  lemma SentLeft(w: World, peers: set<Peer>, reqs: Requests, q0: seq<RequestId>, q: seq<RequestId>, chans: Channels,
                 sent: Option<Offer>, dropped: nat, e: int)
    requires dropped <= |q0| && (sent.Some? ==> 0 <= e < |q0[dropped..]|)
    requires q == if sent.Some? then Omit(q0[dropped..], e) else q0[dropped..]
    requires forall j :: 0 <= j < dropped ==> GivenUp(w, peers, reqs, chans, q0[j])
    requires sent.Some? ==>
               && sent.value.peer in peers && w.wait(sent.value.peer, sent.value.req) == 0
               && Earliest(w, q0, sent.value.peer, dropped + e) && q0[dropped + e] == sent.value.req
               && Given(reqs, chans, sent.value)
    ensures forall r :: r in q0 && r !in q ==> Left(w, peers, reqs, chans, r)
    ensures sent.Some? ==> |q| < |q0|
  {
    hide GivenUp, Given;
    forall r | r in q0 && r !in q ensures Left(w, peers, reqs, chans, r) {
      var j :| 0 <= j < |q0| && q0[j] == r;
      if dropped <= j {
        var s := q0[dropped..];
        assert s[j - dropped] == r && r in s;
        if sent.Some? { OmitOthers(s, e, j - dropped); }
        assert sent.Some? && r == sent.value.req;
        assert sent.value == Offer(sent.value.peer, r);
      }
    }
  }

  lemma SameIndex(q: seq<RequestId>, reqs: Requests, i: nat, j: nat)
    requires Sorted(q, reqs) && i < |q| && j < |q| && q[i] == q[j]
    ensures i == j
  {}

  lemma StopKeeps(q: seq<RequestId>, reqs: Requests, chans: Channels, last: nat, i: nat)
    requires Sorted(q, reqs) && Numbered(q, reqs, last) && Wired(q, reqs, chans)
    requires i < |q| && SentChn(reqs, q[i]).Some?
    ensures var c, reqs' := SentChn(reqs, q[i]).value, reqs[q[i] := reqs[q[i]].(sentChn := None)];
            var chans' := chans[c := Channel(false, [])];
            && Sorted(q, reqs') && Numbered(q, reqs', last) && Wired(q, reqs', chans') && Grown(chans, chans')
            && forall k :: 0 <= k < |q| && k != i ==> SentChn(reqs', q[k]) == SentChn(reqs, q[k])
  {
    var r := q[i];
    var reqs' := reqs[r := reqs[r].(sentChn := None)];
    assert forall x :: OrderOf(reqs', x) == OrderOf(reqs, x);
    assert forall x :: SentChn(reqs', x) == if x == r then None else SentChn(reqs, x);
    forall k | 0 <= k < |q| && k != i ensures q[k] != r { assert OrderOf(reqs, q[k]) != OrderOf(reqs, q[i]); }
  }

  lemma NoneWaits(q: seq<RequestId>, reqs: Requests, chans: Channels)
    requires Wired(q, reqs, chans) && forall k :: 0 <= k < |q| ==> SentChn(reqs, q[k]) == None
    ensures forall r :: SentChn(reqs, r) == None
  {}

  datatype Step = Enqueue(r: RequestId) | Withdraw(r: RequestId) | Loop(worlds: nat -> World, picks: nat -> nat)
                | Register(p: Peer) | Unregister(p: Peer) | Shutdown

  class Distributor {
    var reqQueue: seq<RequestId>
    var reqs: Requests
    var chans: Channels
    var nextChn: nat
    var lastReqOrder: nat
    var peers: set<Peer>
    var stopped: bool

    ghost predicate Valid()
      reads this
    {
      && Sorted(reqQueue, reqs) && Numbered(reqQueue, reqs, lastReqOrder) && Wired(reqQueue, reqs, chans)
      && (forall c :: c in chans ==> 0 <= c < nextChn)
      && (!stopped ==> forall r :: r in reqQueue ==> SentChn(reqs, r).Some?)
    }

    constructor ()
      ensures Valid() && !stopped && reqQueue == [] && peers == {}
    {
      reqQueue, reqs, chans, nextChn, lastReqOrder, peers, stopped := [], map[], map[], 0, 0, {}, false;
    }

    /** Closing a channel, which must be open. */
    method Close(c: ChannelId)
      requires c in chans && chans[c].open
      modifies this`chans
      ensures chans == old(chans)[c := Channel(false, old(chans)[c].peers)]
    {
      chans := chans[c := Channel(false, chans[c].peers)];
    }

    /** Putting a peer into a channel, which must be open and have room. */
    method Offer(c: ChannelId, peer: Peer)
      requires Waiting(chans, c)
      modifies this`chans
      ensures chans == old(chans)[c := Channel(true, [peer])]
    {
      chans := chans[c := Channel(true, [peer])];
    }

    /** Takes the waiting request at i out of the queue and settles its channel. */
    method Settle(i: nat, sentTo: seq<Peer>)
      requires Valid() && i < |reqQueue| && SentChn(reqs, reqQueue[i]).Some? && |sentTo| <= 1
      modifies this`reqQueue, this`reqs, this`chans
      ensures Valid() && Grown(old(chans), chans) && reqQueue == Omit(old(reqQueue), i)
      ensures old(reqQueue)[i] !in reqQueue && forall r :: r in reqQueue ==> r in old(reqQueue)
      ensures forall r :: OrderOf(reqs, r) == OrderOf(old(reqs), r)
      ensures forall r :: SentChn(reqs, r) == if r == old(reqQueue)[i] then None else SentChn(old(reqs), r)
      ensures chans == old(chans)[SentChn(old(reqs), old(reqQueue)[i]).value := Channel(false, sentTo)]
    {
      hide Sorted, Numbered, Wired, Grown, Omit;
      var r := reqQueue[i];
      ChannelIsWaiting(reqQueue, reqs, chans, r);
      SettleKeeps(reqQueue, reqs, chans, lastReqOrder, i, sentTo);
      SortedWithout(reqQueue, reqs, i);
      var chn := reqs[r].sentChn.value;
      reqs := reqs[r := reqs[r].(sentChn := None)];
      reqQueue := Omit(reqQueue, i);
      if sentTo != [] { Offer(chn, sentTo[0]); }
      Close(chn);
      assert sentTo == if sentTo != [] then [sentTo[0]] else [];
      assert chans == old(chans)[chn := Channel(false, sentTo)];
    }

    /** Queues a request for the first time, or again with the order it had. */
    method Queue(r: RequestId) returns (chn: ChannelId)
      requires Valid() && r !in reqQueue
      modifies this
      ensures Valid() && Grown(old(chans), chans) && chn !in old(chans) && SentChn(reqs, r) == Some(chn)
      ensures OrderOf(reqs, r) == if OrderOf(old(reqs), r) != 0 then OrderOf(old(reqs), r) else old(lastReqOrder) + 1
      ensures forall x :: x != r ==>
                OrderOf(reqs, x) == OrderOf(old(reqs), x) && SentChn(reqs, x) == SentChn(old(reqs), x)
      ensures chans == old(chans)[chn := Channel(true, [])]
      ensures exists i :: 0 <= i <= |old(reqQueue)| && reqQueue == With(old(reqQueue), i, r)
      ensures stopped == old(stopped) && peers == old(peers)
    {
      hide Sorted, Numbered, Wired, Grown, With;
      if OrderOf(reqs, r) == 0 {
        NumberKeeps(reqQueue, reqs, chans, lastReqOrder, r);
        lastReqOrder := lastReqOrder + 1;
        reqs := reqs[r := Request(lastReqOrder, None)];
      }
      var i := Place(reqQueue, reqs, lastReqOrder, r);
      chn := nextChn;
      QueueKeeps(reqQueue, reqs, chans, lastReqOrder, i, r, chn);
      reqQueue := With(reqQueue, i, r);
      reqs := reqs[r := reqs[r].(sentChn := Some(chn))];
      chans, nextChn := chans[chn := Channel(true, [])], nextChn + 1;
    }

    /** Withdraws a request, unless it has left the queue already. */
    method Cancel(r: RequestId) returns (ok: bool)
      requires Valid()
      modifies this`reqQueue, this`reqs, this`chans
      ensures Valid() && Grown(old(chans), chans) && SentChn(reqs, r) == None
      ensures ok <==> SentChn(old(reqs), r).Some?
      ensures ok ==> r !in reqQueue && chans == old(chans)[SentChn(old(reqs), r).value := Channel(false, [])]
      ensures ok ==> exists i :: 0 <= i < |old(reqQueue)| && old(reqQueue)[i] == r && reqQueue == Omit(old(reqQueue), i)
      ensures forall x :: OrderOf(reqs, x) == OrderOf(old(reqs), x)
      ensures forall x :: x != r ==> SentChn(reqs, x) == SentChn(old(reqs), x)
      ensures !ok ==> reqQueue == old(reqQueue) && reqs == old(reqs) && chans == old(chans)
    {
      hide Sorted, Numbered, Wired, Grown;
      GrownSame(chans);
      ok := SentChn(reqs, r).Some?;
      if ok {
        ChannelIsWaiting(reqQueue, reqs, chans, r);
        var i :| 0 <= i < |reqQueue| && reqQueue[i] == r;
        Settle(i, []);
      }
    }

    /** Gives up on the first request. */
    method DropFront()
      requires Valid() && !stopped && reqQueue != []
      modifies this`reqQueue, this`reqs, this`chans
      ensures Valid() && Grown(old(chans), chans) && reqQueue == old(reqQueue)[1..]
      ensures forall r :: r in reqQueue ==> SentChn(reqs, r) == SentChn(old(reqs), r)
      ensures var c := SentChn(old(reqs), old(reqQueue)[0]);
              c.Some? && c.value in chans && chans[c.value] == Channel(false, [])
    {
      hide Sorted, Numbered, Wired, Grown;
      assert reqQueue[0] in reqQueue;
      Settle(0, []);
    }

    /** Drops the requests at the front that no peer can serve, and chooses among the others: no peer
        could start on its earliest request sooner than the chosen one. */
    method NextRequest(w: World, pick: nat) returns (o: Option<Offer>, wait: nat, ghost i: int, ghost dropped: nat)
      requires Valid() && !stopped
      modifies this`reqQueue, this`reqs, this`chans
      ensures Valid() && Grown(old(chans), chans)
      ensures dropped <= |old(reqQueue)| && reqQueue == old(reqQueue)[dropped..]
      ensures forall j :: 0 <= j < dropped ==> GivenUp(w, peers, old(reqs), chans, old(reqQueue)[j])
      ensures forall r :: r in reqQueue ==> SentChn(reqs, r) == SentChn(old(reqs), r)
      ensures reqQueue != [] ==> exists p :: p in peers && w.serves(p, reqQueue[0])
      ensures o == None <==> reqQueue == []
      ensures o == None ==> wait == 0
      ensures o.Some? ==> o.value.peer in peers && Earliest(w, reqQueue, o.value.peer, i) && o.value.req == reqQueue[i]
                          && wait == w.wait(o.value.peer, o.value.req)
      ensures o.Some? ==> forall p, j :: p in peers && Earliest(w, reqQueue, p, j) ==> wait <= w.wait(p, reqQueue[j])
    {
      hide Sorted, Numbered, Wired, Grown, Scanning, Firsts, Readies, Shortest, GivenUp;
      var checked: set<Peer>, ready: seq<Offer>, best: Option<Offer>, n: nat := {}, [], None, 0;
      ghost var first: map<Peer, int> := map[];
      dropped := 0;
      GrownSame(chans);
      ScanningStart(w, reqQueue, peers);
      while (peers != {} || n == 0) && n < |reqQueue|
        invariant Valid() && Grown(old(chans), chans) && n <= |reqQueue| && checked == first.Keys
        invariant dropped <= |old(reqQueue)| && reqQueue == old(reqQueue)[dropped..]
        invariant forall j :: 0 <= j < dropped ==> GivenUp(w, peers, old(reqs), chans, old(reqQueue)[j])
        invariant forall r :: r in reqQueue ==> SentChn(reqs, r) == SentChn(old(reqs), r)
        invariant Scanning(w, reqQueue, peers, n, first, ready, best)
        invariant n == 0 ==> first == map[] && ready == [] && best == None
        decreases |reqQueue| - n
      {
        ghost var chans0, first0 := chans, first;
        ScanningParts(w, reqQueue, peers, n, first, ready, best);
        var canSend;
        canSend, checked, ready, best, first := AskPeers(w, reqQueue, peers, n, checked, ready, best, first);
        if !canSend && n == 0 {
          UnservedFront(w, reqQueue, peers);
          assert reqQueue[0] == old(reqQueue)[dropped] && reqQueue[0] in reqQueue;
          DropFront();
          GrownTwice(old(chans), chans0, chans);
          GivenUpNext(w, peers, old(reqs), chans0, chans, old(reqQueue), dropped);
          ScanningStart(w, reqQueue, peers);
          dropped := dropped + 1;
        } else {
          ScanningNext(w, reqQueue, peers, n, first0, first, ready, best, canSend);
          n := n + 1;
        }
      }
      ScanningDone(w, reqQueue, peers, n, first, ready, best);
      o := if ready != [] then Some(ready[pick % |ready|]) else best;
      wait := if o.Some? then w.wait(o.value.peer, o.value.req) else 0;
      i := if o.Some? then first[o.value.peer] else 0;
    }

    /** Sends one request, if one can be sent at once. Its channel is told the peer, and closed; of the
        requests that were queued it is the earliest one the peer can serve. Those given up before stood in
        front, and all others stay. */
    method SendNext(w: World, pick: nat) returns (sent: Option<Offer>, wait: nat, ghost dropped: nat, ghost e: int)
      requires Valid() && !stopped
      modifies this`reqQueue, this`reqs, this`chans
      ensures Valid() && Grown(old(chans), chans)
      ensures dropped <= |old(reqQueue)| && (sent.Some? ==> 0 <= e < |old(reqQueue)[dropped..]|)
      ensures reqQueue == if sent.Some? then Omit(old(reqQueue)[dropped..], e) else old(reqQueue)[dropped..]
      ensures forall j :: 0 <= j < dropped ==> GivenUp(w, peers, old(reqs), chans, old(reqQueue)[j])
      ensures Remain(old(reqQueue), old(reqs), reqQueue, reqs)
      ensures sent.Some? ==> wait == 0 && w.wait(sent.value.peer, sent.value.req) == 0 && sent.value.peer in peers
      ensures sent.Some? ==> Earliest(w, old(reqQueue), sent.value.peer, dropped + e)
                             && old(reqQueue)[dropped + e] == sent.value.req
      ensures sent.Some? ==> Given(old(reqs), chans, sent.value) && sent.value.req !in reqQueue
      ensures sent == None ==> Rested(w, reqQueue, peers, wait)
    {
      hide Sorted, Numbered, Wired, Grown, Omit, GivenUp;
      ghost var i;
      var o;
      o, wait, i, dropped := NextRequest(w, pick);
      sent, e := None, i;
      ghost var kept, mid := reqQueue, chans;
      assert Remain(old(reqQueue), old(reqs), reqQueue, reqs) by {
        forall r | r in reqQueue ensures r in old(reqQueue) { SuffixOf(old(reqQueue), dropped, r); }
      }
      if o.Some? && wait == 0 {
        var k :| 0 <= k < |reqQueue| && reqQueue[k] == o.value.req;
        UnservedBefore(w, peers, old(reqs), chans, old(reqQueue), dropped);
        EarliestBefore(w, old(reqQueue), dropped, o.value.peer, i, peers);
        SameIndex(reqQueue, reqs, k, i);
        Settle(k, [o.value.peer]);
        forall j | 0 <= j < dropped ensures GivenUp(w, peers, old(reqs), chans, old(reqQueue)[j]) {
          LeftStays(w, peers, old(reqs), old(reqs), mid, chans, old(reqQueue)[j]);
        }
        GrownTwice(old(chans), mid, chans);
        sent := o;
      }
    }

    /** The loop: requests are sent until the next one has to wait or there is none. Whatever has left the queue was
        told to a peer that could start on it at once, or no peer could serve it. */
    method Dispatch(worlds: nat -> World, picks: nat -> nat) returns (wait: nat, ghost last: nat)
      requires Valid() && !stopped
      modifies this`reqQueue, this`reqs, this`chans
      ensures Valid() && Grown(old(chans), chans)
      ensures Rested(worlds(last), reqQueue, peers, wait)
      ensures Remain(old(reqQueue), old(reqs), reqQueue, reqs)
      ensures AllLeft(worlds, last, peers, old(reqQueue), old(reqs), reqQueue, chans)
    {
      hide Sorted, Numbered, Wired, Grown, Given, Earliest, Rested, Remain, AllLeft, GivenUp, Left, Omit;
      GrownSame(chans);
      RemainAsIs(reqQueue, reqs);
      var k: nat, more := 0, true;
      wait, last := 0, 0;
      while more
        invariant Valid() && Grown(old(chans), chans) && Remain(old(reqQueue), old(reqs), reqQueue, reqs)
        invariant !more ==> Rested(worlds(last), reqQueue, peers, wait)
        invariant if k == 0 then more && reqQueue == old(reqQueue) && reqs == old(reqs)
                  else last == k - 1 && AllLeft(worlds, last, peers, old(reqQueue), old(reqs), reqQueue, chans)
        decreases more, |reqQueue|
      {
        ghost var queue, before, were := reqQueue, chans, reqs;
        var sent;
        ghost var dropped, e;
        sent, wait, dropped, e := SendNext(worlds(k), picks(k));
        GrownTwice(old(chans), before, chans);
        SentLeft(worlds(k), peers, were, queue, reqQueue, chans, sent, dropped, e);
        AllLeftStep(worlds, k, peers, old(reqQueue), old(reqs), queue, were, before, reqQueue, chans);
        RemainTwice(old(reqQueue), old(reqs), queue, were, reqQueue, reqs);
        last := k;
        k, more := k + 1, sent.Some?;
      }
    }

    /** Shutting down closes the channels of the requests that still wait. */
    method Stop()
      requires Valid() && !stopped
      modifies this`reqs, this`chans, this`stopped
      ensures Valid() && stopped && Grown(old(chans), chans)
      ensures forall r :: SentChn(reqs, r) == None
    {
      hide Sorted, Numbered, Wired, Grown;
      GrownSame(chans);
      stopped := true;
      var i := 0;
      while i < |reqQueue|
        invariant Valid() && stopped && Grown(old(chans), chans) && i <= |reqQueue|
        invariant forall k :: i <= k < |reqQueue| ==> SentChn(reqs, reqQueue[k]).Some?
        invariant forall k :: 0 <= k < i ==> SentChn(reqs, reqQueue[k]) == None
      {
        var r := reqQueue[i];
        ghost var before := chans;
        ChannelIsWaiting(reqQueue, reqs, chans, r);
        StopKeeps(reqQueue, reqs, chans, lastReqOrder, i);
        Close(reqs[r].sentChn.value);
        reqs := reqs[r := reqs[r].(sentChn := None)];
        GrownTwice(old(chans), before, chans);
        i := i + 1;
      }
      NoneWaits(reqQueue, reqs, chans);
    }

    /** In any run, channels are closed once and given at most one peer. */
    method Run(steps: seq<Step>)
      requires Valid()
      modifies this
      ensures Valid() && Grown(old(chans), chans)
    {
      hide Sorted, Numbered, Wired, Grown;
      GrownSame(chans);
      for i := 0 to |steps|
        invariant Valid() && Grown(old(chans), chans)
      {
        ghost var before := chans;
        GrownSame(chans);
        match steps[i] {
          case Enqueue(r) => if r !in reqQueue { var _ := Queue(r); }
          case Withdraw(r) => var _ := Cancel(r);
          case Loop(worlds, picks) => if !stopped { var _, _ := Dispatch(worlds, picks); }
          case Register(p) => peers := peers + {p};
          case Unregister(p) => peers := peers - {p};
          case Shutdown => if !stopped { Stop(); }
        }
        GrownTwice(old(chans), before, chans);
      }
    }
  }
}
