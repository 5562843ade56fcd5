/**
  The dataport client binds every stream to one of its connections, and sends all batches of the
  stream there until the stream ends.
 */
module DataportClient {
  import opened Common
  import opened StreamNames

  datatype Command = StreamBegin | StreamEnd | Mutation

  /** The mutations of one stream; a key-version is named by its first command. */
  datatype Batch = Batch(uuid: string, kvs: seq<Command>)

  datatype VbMap = VbMap(keyspaceId: string, vbuckets: seq<(nat, nat)>)

  datatype Message = Data(batch: Batch) | Map(vbmap: VbMap)

  /** History: streams bound to and released from connections, and messages sent on them. */
  datatype Entry = Bind(uuid: string, conn: nat) | Release(uuid: string) | Sent(conn: nat, msg: Message)

  datatype Outcome = Done | Quit | Crashed

  predicate Begins(b: Batch) { b.kvs != [] && b.kvs[0].StreamBegin? }

  predicate Ends(b: Batch) { b.kvs != [] && b.kvs[|b.kvs| - 1].StreamEnd? }

  // ---- what the history says -------------------------------------------------------------------

  /** The connection a stream is bound to after `log`. */
  function Bound(log: seq<Entry>, u: string): Option<nat>
  {
    if log == [] then None
    else
      var e := log[|log| - 1];
      if e.Bind? && e.uuid == u then Some(e.conn)
      else if e.Release? && e.uuid == u then None
      else Bound(log[..|log| - 1], u)
  }

  /** What has been sent on a connection, in order. */
  function Channel(log: seq<Entry>, conn: nat): seq<Message>
  {
    if log == [] then []
    else
      var e, before := log[|log| - 1], Channel(log[..|log| - 1], conn);
      if e.Sent? && e.conn == conn then before + [e.msg] else before
  }

  /** Every batch went to the connection its stream was bound to at that time. */
  predicate Routed(log: seq<Entry>)
  {
    log == [] ||
    (&& Routed(log[..|log| - 1])
     && var e := log[|log| - 1];
        e.Sent? && e.msg.Data? ==> Bound(log[..|log| - 1], e.msg.batch.uuid) == Some(e.conn))
  }

  /** Streams are bound when they are not bound yet, and released when they are. */
  predicate Paired(log: seq<Entry>)
  {
    log == [] ||
    (&& Paired(log[..|log| - 1])
     && var e := log[|log| - 1];
        && (e.Bind? ==> Bound(log[..|log| - 1], e.uuid).None?)
        && (e.Release? ==> Bound(log[..|log| - 1], e.uuid).Some?))
  }

  predicate NeverReleases(log: seq<Entry>)
  {
    log == [] || (NeverReleases(log[..|log| - 1]) && !log[|log| - 1].Release?)
  }

  lemma Snoc(log: seq<Entry>, e: Entry)
    ensures (log + [e])[..|log|] == log
  {
  }

  /** A batch that ends its stream was sent. */
  predicate SentEnd(e: Entry, u: string) { e.Sent? && e.msg.Data? && Ends(e.msg.batch) && e.msg.batch.uuid == u }

  /** A stream is released at once when a batch that ends it has been sent, and never otherwise. */
  ghost predicate Tidy(log: seq<Entry>)
  {
    && (forall i, u :: 0 <= i < |log| && SentEnd(log[i], u) ==> i + 1 < |log| && log[i + 1] == Release(u))
    && (forall i :: 0 <= i < |log| && log[i].Release? ==> i > 0 && SentEnd(log[i - 1], log[i].uuid))
  }

  lemma TidyOn(log: seq<Entry>, e: Entry)
    requires Tidy(log) && !e.Release? && forall u :: !SentEnd(e, u)
    ensures Tidy(log + [e])
  {
    var all := log + [e];
    assert forall i :: 0 <= i < |log| ==> all[i] == log[i];
  }

  lemma TidyEnd(log: seq<Entry>, e: Entry, u: string)
    requires Tidy(log) && SentEnd(e, u)
    ensures Tidy(log + [e] + [Release(u)])
  {
    var all := log + [e] + [Release(u)];
    assert forall i :: 0 <= i < |log| ==> all[i] == log[i];
    assert all[|log|] == e && all[|log| + 1] == Release(u);
  }

  /**
    Between two batches of a stream with no new binding in between the connection is the same: a
    stream's batches, from the one that begins it to the one that ends it, share a connection.
   */
  lemma {:induction false} SameConnection(log: seq<Entry>, i: nat, j: nat, u: string)
    requires Routed(log) && i <= j < |log|
    requires log[i].Sent? && log[i].msg.Data? && log[i].msg.batch.uuid == u
    requires log[j].Sent? && log[j].msg.Data? && log[j].msg.batch.uuid == u
    requires forall k :: i < k < j ==> !(log[k].Bind? && log[k].uuid == u)
    ensures log[i].conn == log[j].conn
  {
    RoutedPrefix(log, i + 1);
    RoutedPrefix(log, j + 1);
    assert log[..i + 1][..i] == log[..i] && log[..j + 1][..j] == log[..j];
    BoundSince(log, i, j, u);
  }

  lemma {:induction false} RoutedPrefix(log: seq<Entry>, n: nat)
    requires Routed(log) && n <= |log|
    ensures Routed(log[..n])
  {
    if n < |log| {
      RoutedPrefix(log[..|log| - 1], n);
      assert log[..|log| - 1][..n] == log[..n];
    } else {
      assert log[..n] == log;
    }
  }

  /** Without a new binding a stream that is bound at all is bound where it was. */
  lemma {:induction false} BoundSince(log: seq<Entry>, i: nat, j: nat, u: string)
    requires i <= j <= |log| && Bound(log[..i], u).Some?
    requires forall k :: i <= k < j ==> !(log[k].Bind? && log[k].uuid == u)
    ensures Bound(log[..j], u).Some? ==> Bound(log[..j], u) == Bound(log[..i], u)
    decreases j - i
  {
    if i < j {
      assert log[..j][..j - 1] == log[..j - 1];
      BoundSince(log, i, j - 1, u);
      if Bound(log[..j - 1], u).None? { StaysNone(log, i, j - 1, u); }
    }
  }

  lemma StaysNone(log: seq<Entry>, i: nat, j: nat, u: string)
    requires i <= j < |log| && Bound(log[..j], u).None? && !(log[j].Bind? && log[j].uuid == u)
    ensures Bound(log[..j + 1], u).None?
  {
    assert log[..j + 1][..j] == log[..j];
  }

  // ---- what every step keeps -------------------------------------------------------------------

  type Homes = map<nat, seq<string>>      // conn2Vbs: the streams of each connection
  type Routes = map<string, nat>          // vbChans: the connection whose channel a stream uses
  type Channels = map<nat, seq<Message>>  // what has been put into the channel of each connection

  ghost predicate Numbered<T>(m: map<nat, T>, n: nat) { forall i: nat :: i in m <==> i < n }

  /** Every live stream is on exactly one connection, once, and vbChans names that connection. */
  ghost predicate OneHome(homes: Homes, routes: Routes)
  {
    && (forall i :: i in homes ==> NoDup(homes[i]))
    && (forall i, u :: i in homes && u in homes[i] ==> u in routes && routes[u] == i)
    && (forall u :: u in routes ==> routes[u] in homes && u in homes[routes[u]])
  }

  function Lookup(routes: Routes, u: string): Option<nat> { if u in routes then Some(routes[u]) else None }

  ghost predicate Recorded(routes: Routes, chans: Channels, log: seq<Entry>)
  {
    && (forall u :: Bound(log, u) == Lookup(routes, u))
    && (forall i :: i in chans ==> chans[i] == Channel(log, i))
  }

  ghost predicate Balanced(homes: Homes)
  {
    forall i, j :: i in homes && j in homes ==> |homes[i]| <= |homes[j]| + 1
  }

  ghost predicate Inv(n: nat, homes: Homes, routes: Routes, chans: Channels, log: seq<Entry>)
  {
    && n > 0 && Numbered(homes, n) && Numbered(chans, n)
    && OneHome(homes, routes) && Recorded(routes, chans, log) && Routed(log) && Paired(log)
    && (NeverReleases(log) ==> Balanced(homes))
  }

  /** No connection has fewer streams. */
  ghost predicate Least(homes: Homes, idx: nat)
  {
    idx in homes && forall i :: i in homes ==> |homes[idx]| <= |homes[i]|
  }

  lemma RecordedOn(routes: Routes, chans: Channels, log: seq<Entry>, e: Entry, r: Routes, c: Channels)
    requires Recorded(routes, chans, log) && c.Keys == chans.Keys
    requires forall u :: Lookup(r, u) == if e.Bind? && e.uuid == u then Some(e.conn)
                                         else if e.Release? && e.uuid == u then None else Lookup(routes, u)
    requires forall i :: i in c ==> c[i] == if e.Sent? && e.conn == i then chans[i] + [e.msg] else chans[i]
    ensures Recorded(r, c, log + [e])
  {
    Snoc(log, e);
  }

  lemma InvBind(n: nat, homes: Homes, routes: Routes, chans: Channels, log: seq<Entry>, u: string, idx: nat)
    requires Inv(n, homes, routes, chans, log) && Least(homes, idx) && u !in routes
    ensures Inv(n, homes[idx := homes[idx] + [u]], routes[u := idx], chans, log + [Bind(u, idx)])
  {
    Snoc(log, Bind(u, idx));
    RecordedOn(routes, chans, log, Bind(u, idx), routes[u := idx], chans);
    HomeBind(homes, routes, u, idx);
  }

  lemma Homeless(homes: Homes, routes: Routes, u: string)
    requires OneHome(homes, routes)
    ensures (forall i :: i in homes ==> u !in homes[i]) <==> u !in routes
  {
  }

  lemma HomeBind(homes: Homes, routes: Routes, u: string, idx: nat)
    requires OneHome(homes, routes) && idx in homes && u !in routes
    ensures OneHome(homes[idx := homes[idx] + [u]], routes[u := idx])
  {
    var h := homes[idx := homes[idx] + [u]];
    assert forall x :: x in h[idx] <==> x in homes[idx] || x == u;
  }

  function Without(xs: seq<string>, u: string): (r: seq<string>)
    ensures forall x :: x in r <==> x in xs && x != u
  {
    if xs == [] then []
    else if xs[|xs| - 1] == u then Without(xs[..|xs| - 1], u)
    else Without(xs[..|xs| - 1], u) + [xs[|xs| - 1]]
  }

  lemma {:induction false} WithoutNoDup(xs: seq<string>, u: string)
    requires NoDup(xs)
    ensures NoDup(Without(xs, u))
  {
    if xs != [] {
      var k := |xs| - 1;
      WithoutNoDup(xs[..k], u);
      assert xs[k] !in xs[..k];
    }
  }

  function Removed(homes: Homes, u: string): Homes { map i | i in homes :: Without(homes[i], u) }

  lemma InvRelease(n: nat, homes: Homes, routes: Routes, chans: Channels, log: seq<Entry>, u: string)
    requires Inv(n, homes, routes, chans, log) && u in routes
    ensures Inv(n, Removed(homes, u), routes - {u}, chans, log + [Release(u)])
  {
    Snoc(log, Release(u));
    RecordedOn(routes, chans, log, Release(u), routes - {u}, chans);
    HomeRelease(homes, routes, u);
  }

  lemma HomeRelease(homes: Homes, routes: Routes, u: string)
    requires OneHome(homes, routes)
    ensures OneHome(Removed(homes, u), routes - {u})
  {
    forall i | i in homes ensures NoDup(Without(homes[i], u)) { WithoutNoDup(homes[i], u); }
  }

  lemma InvSend(n: nat, homes: Homes, routes: Routes, chans: Channels, log: seq<Entry>, i: nat, msg: Message)
    requires Inv(n, homes, routes, chans, log) && i in chans
    requires msg.Data? ==> Lookup(routes, msg.batch.uuid) == Some(i)
    ensures Inv(n, homes, routes, chans[i := chans[i] + [msg]], log + [Sent(i, msg)])
  {
    Snoc(log, Sent(i, msg));
    RecordedOn(routes, chans, log, Sent(i, msg), routes, chans[i := chans[i] + [msg]]);
  }

  // ---- the batches that have been sent -----------------------------------------------------------

  function SentData(log: seq<Entry>): seq<Batch>
  {
    if log == [] then []
    else
      var e, before := log[|log| - 1], SentData(log[..|log| - 1]);
      if e.Sent? && e.msg.Data? then before + [e.msg.batch] else before
  }

  lemma BindLogged(log: seq<Entry>, u: string, i: nat)
    ensures SentData(log + [Bind(u, i)]) == SentData(log)
    ensures NeverReleases(log + [Bind(u, i)]) <==> NeverReleases(log)
  {
    Snoc(log, Bind(u, i));
  }

  function NonEmpty(vbs: seq<Batch>): seq<Batch>
  {
    if vbs == [] then []
    else
      var b, before := vbs[|vbs| - 1], NonEmpty(vbs[..|vbs| - 1]);
      if b.kvs == [] then before else before + [b]
  }

  lemma NonEmptyNext(sent: seq<Batch>, vbs: seq<Batch>, i: nat)
    requires i < |vbs|
    ensures sent + NonEmpty(vbs[..i + 1]) == if vbs[i].kvs == [] then sent + NonEmpty(vbs[..i])
                                             else sent + NonEmpty(vbs[..i]) + [vbs[i]]
  {
    assert vbs[..i + 1][..i] == vbs[..i];
    assert sent + (NonEmpty(vbs[..i]) + [vbs[i]]) == sent + NonEmpty(vbs[..i]) + [vbs[i]];
  }

  /** The stream is live after these batches: its last one does not end it. */
  predicate Live(vbs: seq<Batch>, u: string, was: bool)
  {
    if vbs == [] then was
    else
      var b := vbs[|vbs| - 1];
      if b.kvs != [] && b.uuid == u then !Ends(b) else Live(vbs[..|vbs| - 1], u, was)
  }

  /** What becomes of batch j: the client crashes on a stream begun twice, and quits when told or without a channel. */
  predicate Crashes(vbs: seq<Batch>, j: nat, routes: Routes)
    requires j < |vbs|
  {
    Begins(vbs[j]) && Live(vbs[..j], vbs[j].uuid, vbs[j].uuid in routes)
  }

  predicate Quits(vbs: seq<Batch>, j: nat, quitAt: nat, routes: Routes)
    requires j < |vbs|
  {
    vbs[j].kvs != [] && !Crashes(vbs, j, routes)
    && (j == quitAt || !(Begins(vbs[j]) || Live(vbs[..j], vbs[j].uuid, vbs[j].uuid in routes)))
  }

  lemma LiveNext(vbs: seq<Batch>, i: nat, u: string, was: bool)
    requires i < |vbs|
    ensures Live(vbs[..i + 1], u, was)
         == if vbs[i].kvs != [] && vbs[i].uuid == u then !Ends(vbs[i]) else Live(vbs[..i], u, was)
  {
    assert vbs[..i + 1][..i] == vbs[..i];
  }

  /** After i batches: none has stopped the client, and the channels are those of the live streams. */
  ghost predicate LiveSoFar(vbs: seq<Batch>, i: nat, quitAt: nat, was: Routes, now: Routes)
  {
    && i <= |vbs| && (forall j :: 0 <= j < i ==> !Crashes(vbs, j, was) && !Quits(vbs, j, quitAt, was))
    && (forall u :: u in now <==> Live(vbs[..i], u, u in was))
  }

  lemma SoFarNext(vbs: seq<Batch>, i: nat, quitAt: nat, was: Routes, now: Routes)
    requires LiveSoFar(vbs, i, quitAt, was, now) && i < |vbs|
    ensures Crashes(vbs, i, was) <==> Begins(vbs[i]) && vbs[i].uuid in now
    ensures Quits(vbs, i, quitAt, was) <==>
              vbs[i].kvs != [] && !(Begins(vbs[i]) && vbs[i].uuid in now)
              && (i == quitAt || (!Begins(vbs[i]) && vbs[i].uuid !in now))
    ensures vbs[i].kvs == [] ==> LiveSoFar(vbs, i + 1, quitAt, was, now)
  {
    if vbs[i].kvs == [] {
      forall u ensures u in now <==> Live(vbs[..i + 1], u, u in was) { LiveNext(vbs, i, u, u in was); }
    }
  }

  lemma SoFarSent(vbs: seq<Batch>, i: nat, quitAt: nat, was: Routes, now: Routes, next: Routes)
    requires LiveSoFar(vbs, i, quitAt, was, now) && i < |vbs| && vbs[i].kvs != []
    requires !Crashes(vbs, i, was) && !Quits(vbs, i, quitAt, was)
    requires vbs[i].uuid in next <==> !Ends(vbs[i])
    requires forall x :: x != vbs[i].uuid ==> Lookup(next, x) == Lookup(now, x)
    ensures LiveSoFar(vbs, i + 1, quitAt, was, next)
  {
    forall u ensures u in next <==> Live(vbs[..i + 1], u, u in was) {
      LiveNext(vbs, i, u, u in was);
      if u != vbs[i].uuid { assert Lookup(next, u) == Lookup(now, u); }
    }
  }

  // ---- the streams of a vbmap ------------------------------------------------------------------------

  /** The stream of a vbucket that is not yet part of a session. */
  function Id(keyspaceId: string, vb: (nat, nat)): string { StreamId(keyspaceId, vb.0, 0) }

  predicate Distinct(vbs: seq<(nat, nat)>) { forall i, j :: 0 <= i < j < |vbs| ==> vbs[i].0 != vbs[j].0 }

  predicate AnyLive(keyspaceId: string, vbs: seq<(nat, nat)>, routes: Routes)
  {
    exists i :: 0 <= i < |vbs| && Id(keyspaceId, vbs[i]) in routes
  }

  /** The vbuckets that a connection has to carry, in order. */
  function Share(keyspaceId: string, vbs: seq<(nat, nat)>, routes: Routes, conn: nat): seq<(nat, nat)>
  {
    if vbs == [] then []
    else
      var vb, before := vbs[|vbs| - 1], Share(keyspaceId, vbs[..|vbs| - 1], routes, conn);
      if Lookup(routes, Id(keyspaceId, vb)) == Some(conn) then before + [vb] else before
  }

  lemma {:induction false} ShareKept(ks: string, vbs: seq<(nat, nat)>, routes: Routes, u: string, idx: nat, conn: nat)
    requires forall i :: 0 <= i < |vbs| ==> Id(ks, vbs[i]) in routes
    requires u !in routes
    ensures Share(ks, vbs, routes[u := idx], conn) == Share(ks, vbs, routes, conn)
  {
    if vbs != [] { ShareKept(ks, vbs[..|vbs| - 1], routes, u, idx, conn); }
  }

  lemma ShareNext(ks: string, vbs: seq<(nat, nat)>, n: nat, routes: Routes, idx: nat, conn: nat)
    requires n < |vbs| && forall i :: 0 <= i < n ==> Id(ks, vbs[i]) in routes
    requires Id(ks, vbs[n]) !in routes
    ensures Share(ks, vbs[..n + 1], routes[Id(ks, vbs[n]) := idx], conn)
         == Share(ks, vbs[..n], routes, conn) + if conn == idx then [vbs[n]] else []
  {
    var head := vbs[..n];
    assert vbs[..n + 1][..n] == head;
    ShareKept(ks, head, routes, Id(ks, vbs[n]), idx, conn);
    assert Share(ks, head, routes, conn) + [] == Share(ks, head, routes, conn);
  }

  ghost predicate Shared(shares: map<nat, seq<(nat, nat)>>, ks: string, vbs: seq<(nat, nat)>, routes: Routes)
  {
    forall c :: c in shares ==> shares[c] == Share(ks, vbs, routes, c)
  }

  lemma SharedNext(shares: map<nat, seq<(nat, nat)>>, ks: string, vbs: seq<(nat, nat)>, n: nat, routes: Routes,
                   idx: nat)
    requires n < |vbs| && (forall i :: 0 <= i < n ==> Id(ks, vbs[i]) in routes) && Id(ks, vbs[n]) !in routes
    requires Shared(shares, ks, vbs[..n], routes) && idx in shares
    ensures Shared(shares[idx := shares[idx] + [vbs[n]]], ks, vbs[..n + 1], routes[Id(ks, vbs[n]) := idx])
    ensures shares[idx := shares[idx] + [vbs[n]]].Keys == shares.Keys
  {
    forall c | c in shares
      ensures Share(ks, vbs[..n + 1], routes[Id(ks, vbs[n]) := idx], c)
           == if c == idx then shares[c] + [vbs[n]] else shares[c] {
      ShareNext(ks, vbs, n, routes, idx, c);
    }
  }

  predicate Among(ks: string, vbs: seq<(nat, nat)>, n: nat, u: string)
    requires n <= |vbs|
  {
    exists i :: 0 <= i < n && u == Id(ks, vbs[i])
  }

  lemma AmongMore(ks: string, vbs: seq<(nat, nat)>, n: nat, u: string)
    requires n < |vbs| && (Among(ks, vbs, n, u) || u == Id(ks, vbs[n]))
    ensures Among(ks, vbs, n + 1, u)
  {
  }

  /** A vbucket that cannot be bound is live, or stands in the map twice. */
  lemma Refused(ks: string, vbs: seq<(nat, nat)>, n: nat, before: Routes, now: Routes)
    requires n < |vbs| && Id(ks, vbs[n]) in now
    requires forall u :: u in now ==> u in before || Among(ks, vbs, n, u)
    ensures AnyLive(ks, vbs, before) || !Distinct(vbs)
  {
    if Id(ks, vbs[n]) !in before {
      var i :| 0 <= i < n && Id(ks, vbs[n]) == Id(ks, vbs[i]);
      StreamIdsApart(ks, vbs[n].0, 0, ks, vbs[i].0, 0);
    }
  }

  /** While bindings succeed the vbuckets are different and none was live. */
  ghost predicate BoundSoFar(ks: string, vbs: seq<(nat, nat)>, n: nat, before: Routes, now: Routes)
  {
    && n <= |vbs| && Distinct(vbs[..n]) && !AnyLive(ks, vbs[..n], before)
    && (forall i :: 0 <= i < n ==> Id(ks, vbs[i]) in now)
    && (forall u :: u in before ==> u in now)
    && (forall u :: u in now ==> u in before || Among(ks, vbs, n, u))
  }

  lemma BoundOne(ks: string, vbs: seq<(nat, nat)>, n: nat, before: Routes, now: Routes, idx: nat)
    requires n < |vbs| && BoundSoFar(ks, vbs, n, before, now) && Id(ks, vbs[n]) !in now
    ensures BoundSoFar(ks, vbs, n + 1, before, now[Id(ks, vbs[n]) := idx])
  {
    var id := Id(ks, vbs[n]);
    NewVbucket(ks, vbs, n, before, now);
    forall u | u in now[id := idx] ensures u in before || Among(ks, vbs, n + 1, u) {
      if u == id || u !in before { AmongMore(ks, vbs, n, u); }
    }
  }

  lemma NewVbucket(ks: string, vbs: seq<(nat, nat)>, n: nat, before: Routes, now: Routes)
    requires n < |vbs| && Distinct(vbs[..n]) && !AnyLive(ks, vbs[..n], before)
    requires (forall i :: 0 <= i < n ==> Id(ks, vbs[i]) in now) && (forall u :: u in before ==> u in now)
    requires Id(ks, vbs[n]) !in now
    ensures Distinct(vbs[..n + 1]) && !AnyLive(ks, vbs[..n + 1], before)
  {
    var head, all := vbs[..n], vbs[..n + 1];
    assert all == head + [vbs[n]];
    forall i | 0 <= i < n ensures vbs[i].0 != vbs[n].0 { assert Id(ks, vbs[i]) in now; }
    forall i | 0 <= i < |all| ensures Id(ks, all[i]) !in before {
      if i < n { assert head[i] == all[i]; }
    }
  }

  // ---- the client ----------------------------------------------------------------------------------

  /** RemoveString. */
  method RemoveString(item: string, xs: seq<string>) returns (ys: seq<string>)
    ensures ys == Without(xs, item)
  {
    ys := [];
    for i := 0 to |xs|
      invariant ys == Without(xs[..i], item)
    {
      assert xs[..i + 1][..i] == xs[..i];
      if xs[i] != item { ys := ys + [xs[i]]; }
    }
    assert xs[..|xs|] == xs;
  }

  class Client {
    const conns: nat
    var conn2Vbs: Homes
    var connChans: Channels
    var vbChans: Routes
    var closed: bool
    ghost var log: seq<Entry>

    ghost predicate Sound()
      reads this
    {
      Inv(conns, conn2Vbs, vbChans, connChans, log)
    }

    ghost predicate Valid()
      reads this
    {
      Sound() && Tidy(log)
    }

    constructor (n: nat)
      requires n > 0
      ensures Valid() && conns == n && log == [] && !closed
    {
      conns, closed, conn2Vbs, connChans, vbChans, log := n, false, map[], map[], map[], [];
      new;
      for i := 0 to n
        invariant Numbered(conn2Vbs, i) && Numbered(connChans, i) && conns == n
        invariant forall j :: j in conn2Vbs ==> conn2Vbs[j] == []
        invariant forall j :: j in connChans ==> connChans[j] == []
        invariant vbChans == map[] && log == [] && !closed
      {
        conn2Vbs, connChans := conn2Vbs[i := []], connChans[i := []];
      }
    }

    /** The connection with the fewest streams takes the new one; a stream that is live already is refused. */
    method AddVbucket(uuid: string) returns (ok: bool, idx: nat)
      requires 0 in conn2Vbs
      modifies this`conn2Vbs
      ensures ok <==> forall i :: i in old(conn2Vbs) ==> uuid !in old(conn2Vbs)[i]
      ensures !ok ==> conn2Vbs == old(conn2Vbs)
      ensures ok ==> Least(old(conn2Vbs), idx) && (Least(old(conn2Vbs), 0) ==> idx == 0)
      ensures ok ==> conn2Vbs == old(conn2Vbs)[idx := old(conn2Vbs)[idx] + [uuid]]
    {
      idx := 0;
      var min := |conn2Vbs[0]|;
      var left := conn2Vbs.Keys;
      while left != {}
        invariant left <= conn2Vbs.Keys && idx in conn2Vbs && min == |conn2Vbs[idx]| <= |conn2Vbs[0]|
        invariant idx != 0 ==> min < |conn2Vbs[0]|
        invariant forall i :: i in conn2Vbs && i !in left ==> min <= |conn2Vbs[i]| && uuid !in conn2Vbs[i]
        decreases left
      {
        var i :| i in left;
        left := left - {i};
        var uuids := conn2Vbs[i];
        for j := 0 to |uuids|
          invariant uuid !in uuids[..j]
        {
          if uuids[j] == uuid { return false, idx; }
          assert uuids[..j + 1] == uuids[..j] + [uuids[j]];
        }
        assert uuids[..|uuids|] == uuids;
        if |uuids| < min { idx, min := i, |uuids|; }
      }
      conn2Vbs := conn2Vbs[idx := conn2Vbs[idx] + [uuid]];
      ok := true;
    }

    method DelVbucket(uuid: string)
      modifies this`conn2Vbs
      ensures conn2Vbs == Removed(old(conn2Vbs), uuid)
    {
      var nmap: Homes, left := map[], conn2Vbs.Keys;
      while left != {}
        invariant conn2Vbs == old(conn2Vbs) && left <= conn2Vbs.Keys && nmap.Keys == conn2Vbs.Keys - left
        invariant forall i :: i in nmap ==> nmap[i] == Without(conn2Vbs[i], uuid)
        decreases left
      {
        var i :| i in left;
        var uuids := RemoveString(uuid, conn2Vbs[i]);
        nmap := nmap[i := uuids];
        left := left - {i};
      }
      assert nmap == Removed(conn2Vbs, uuid);
      conn2Vbs := nmap;
    }

    /** Binds a new stream to a connection. */
    method Bind(uuid: string) returns (ok: bool, idx: nat)
      requires Valid()
      modifies this`conn2Vbs, this`vbChans, this`log
      ensures Valid() && (ok <==> uuid !in old(vbChans))
      ensures !ok ==> log == old(log) && vbChans == old(vbChans)
      ensures ok ==> idx in connChans && vbChans == old(vbChans)[uuid := idx]
      ensures ok ==> log == old(log) + [Entry.Bind(uuid, idx)]
      ensures SentData(log) == SentData(old(log)) && (NeverReleases(old(log)) ==> NeverReleases(log))
    {
      Homeless(conn2Vbs, vbChans, uuid);
      ok, idx := AddVbucket(uuid);
      if ok {
        InvBind(conns, old(conn2Vbs), vbChans, connChans, log, uuid, idx);
        vbChans := vbChans[uuid := idx];
        BindLogged(log, uuid, idx);
        TidyOn(log, Entry.Bind(uuid, idx));
        log := log + [Entry.Bind(uuid, idx)];
      }
    }

    /** Puts a message into the channel of a connection. */
    method Put(i: nat, msg: Message)
      requires Sound() && i in connChans && (msg.Data? ==> Lookup(vbChans, msg.batch.uuid) == Some(i))
      modifies this`connChans, this`log
      ensures Sound() && log == old(log) + [Sent(i, msg)] && connChans == old(connChans)[i := old(connChans)[i] + [msg]]
      ensures SentData(log) == SentData(old(log)) + if msg.Data? then [msg.batch] else []
      ensures NeverReleases(old(log)) ==> NeverReleases(log)
    {
      Snoc(log, Sent(i, msg));
      InvSend(conns, conn2Vbs, vbChans, connChans, log, i, msg);
      connChans := connChans[i := connChans[i] + [msg]];
      log := log + [Sent(i, msg)];
    }

    method PutMap(i: nat, vbmap: VbMap)
      requires Valid() && i in connChans
      modifies this`connChans, this`log
      ensures Valid() && connChans == old(connChans)[i := old(connChans)[i] + [Map(vbmap)]]
      ensures SentData(log) == SentData(old(log))
    {
      TidyOn(log, Sent(i, Map(vbmap)));
      Put(i, Map(vbmap));
    }

    method ReleaseStream(uuid: string)
      requires Sound() && uuid in vbChans
      modifies this`conn2Vbs, this`vbChans, this`log
      ensures Sound() && log == old(log) + [Release(uuid)] && SentData(log) == SentData(old(log))
      ensures vbChans == old(vbChans) - {uuid}
    {
      Snoc(log, Release(uuid));
      InvRelease(conns, conn2Vbs, vbChans, connChans, log, uuid);
      DelVbucket(uuid);
      vbChans := vbChans - {uuid};
      log := log + [Release(uuid)];
    }

    /** Sends a batch of a bound stream and releases the stream when the batch ends it. */
    method Deliver(vb: Batch)
      requires Valid() && vb.kvs != [] && vb.uuid in vbChans
      modifies this`conn2Vbs, this`connChans, this`vbChans, this`log
      ensures Valid() && SentData(log) == SentData(old(log)) + [vb]
      ensures vbChans == if Ends(vb) then old(vbChans) - {vb.uuid} else old(vbChans)
      ensures !Ends(vb) && NeverReleases(old(log)) ==> NeverReleases(log)
    {
      var idx := vbChans[vb.uuid];
      if Ends(vb) { TidyEnd(log, Sent(idx, Data(vb)), vb.uuid); } else { TidyOn(log, Sent(idx, Data(vb))); }
      Put(idx, Data(vb));
      if vb.kvs[|vb.kvs| - 1].StreamEnd? { ReleaseStream(vb.uuid); }
    }

    /**
      One batch: `quit` says whether a quit message is taken instead of sending. A batch of a
      stream that is not bound has no channel to go to and leaves nothing but to quit.
     */
    method SendBatch(vb: Batch, quit: bool) returns (outcome: Outcome)
      requires Valid() && vb.kvs != []
      modifies this`conn2Vbs, this`connChans, this`vbChans, this`log
      ensures Valid()
      ensures outcome == if Begins(vb) && vb.uuid in old(vbChans) then Crashed
                         else if quit || (!Begins(vb) && vb.uuid !in old(vbChans)) then Quit else Done
      ensures SentData(log) == if outcome.Done? then SentData(old(log)) + [vb] else SentData(old(log))
      ensures outcome.Done? ==> (vb.uuid in vbChans <==> !Ends(vb))
      ensures forall x :: x != vb.uuid ==> Lookup(vbChans, x) == Lookup(old(vbChans), x)
      ensures !Ends(vb) && NeverReleases(old(log)) ==> NeverReleases(log)
    {
      outcome := Done;
      if vb.kvs[0].StreamBegin? {
        var ok, idx := Bind(vb.uuid);
        if !ok { outcome := Crashed; }
      }
      if outcome.Done? {
        if quit || vb.uuid !in vbChans {
          outcome := Quit;
        } else {
          Deliver(vb);
        }
      }
    }

    /**
      The batches of one call go out in order, empty ones aside, until the client is told to quit,
      has no channel for one, or is asked to begin a stream that is live.
     */
    method SendKeyVersions(vbs: seq<Batch>, quitAt: nat) returns (outcome: Outcome, ghost k: nat)
      requires Valid() && !closed
      modifies this
      ensures Valid() && k <= |vbs| && (outcome.Done? <==> k == |vbs|) && (closed <==> !outcome.Done?)
      ensures SentData(log) == SentData(old(log)) + NonEmpty(vbs[..k])
      ensures forall j :: 0 <= j < k ==> !Crashes(vbs, j, old(vbChans)) && !Quits(vbs, j, quitAt, old(vbChans))
      ensures outcome.Crashed? ==> k < |vbs| && Crashes(vbs, k, old(vbChans))
      ensures outcome.Quit? ==> k < |vbs| && Quits(vbs, k, quitAt, old(vbChans))
      ensures outcome.Done? ==> forall u :: u in vbChans <==> Live(vbs, u, u in old(vbChans))
      ensures NeverReleases(log) ==> Balanced(conn2Vbs)
    {
      k, outcome := 0, Done;
      for i := 0 to |vbs|
        invariant Valid() && k == i && outcome.Done? && !closed
        invariant SentData(log) == SentData(old(log)) + NonEmpty(vbs[..i])
        invariant LiveSoFar(vbs, i, quitAt, old(vbChans), vbChans)
      {
        outcome := SendNext(vbs, i, quitAt, old(vbChans), SentData(old(log)));
        if !outcome.Done? {
          closed := true;
          return;
        }
        k := i + 1;
      }
      assert vbs[..|vbs|] == vbs;
    }

    /** One turn of that loop. */
    method SendNext(vbs: seq<Batch>, i: nat, quitAt: nat, ghost was: Routes, ghost sent: seq<Batch>)
      returns (outcome: Outcome)
      requires Valid() && i < |vbs| && LiveSoFar(vbs, i, quitAt, was, vbChans)
      requires SentData(log) == sent + NonEmpty(vbs[..i])
      modifies this`conn2Vbs, this`connChans, this`vbChans, this`log
      ensures Valid()
      ensures outcome.Crashed? ==> Crashes(vbs, i, was)
      ensures outcome.Quit? ==> Quits(vbs, i, quitAt, was)
      ensures outcome.Done? ==> LiveSoFar(vbs, i + 1, quitAt, was, vbChans)
      ensures SentData(log) == sent + NonEmpty(vbs[..if outcome.Done? then i + 1 else i])
    {
      outcome := Done;
      NonEmptyNext(sent, vbs, i);
      SoFarNext(vbs, i, quitAt, was, vbChans);
      if vbs[i].kvs != [] {
        ghost var before := vbChans;
        outcome := SendBatch(vbs[i], i == quitAt);
        if outcome.Done? { SoFarSent(vbs, i, quitAt, was, before, vbChans); }
      }
    }

    /** Binds the streams of a vbmap and tells every connection which vbuckets it carries. */
    method SendVbmap(vbmap: VbMap) returns (ok: bool)
      requires Valid() && !closed
      modifies this
      ensures Valid() && closed == !ok && SentData(log) == SentData(old(log))
      ensures NeverReleases(log) ==> Balanced(conn2Vbs)
      ensures ok <==> Distinct(vbmap.vbuckets) && forall i :: 0 <= i < |vbmap.vbuckets| ==>
                StreamId(vbmap.keyspaceId, vbmap.vbuckets[i].0, 0) !in old(vbChans)
      ensures ok ==> forall i :: 0 <= i < |vbmap.vbuckets| ==>
                StreamId(vbmap.keyspaceId, vbmap.vbuckets[i].0, 0) in vbChans
      ensures ok ==> connChans.Keys == old(connChans.Keys)
      ensures ok ==> forall c :: c in connChans ==>
                connChans[c] == old(connChans)[c]
                  + [Map(VbMap(vbmap.keyspaceId, Share(vbmap.keyspaceId, vbmap.vbuckets, vbChans, c)))]
    {
      var shares;
      ok, shares := BindAll(vbmap.keyspaceId, vbmap.vbuckets);
      if ok {
        SendShares(vbmap.keyspaceId, shares);
      } else {
        closed := true;
      }
    }

    method BindAll(ks: string, vbs: seq<(nat, nat)>) returns (ok: bool, shares: map<nat, seq<(nat, nat)>>)
      requires Valid()
      modifies this`conn2Vbs, this`vbChans, this`log
      ensures Valid() && SentData(log) == SentData(old(log))
      ensures ok <==> Distinct(vbs) && !AnyLive(ks, vbs, old(vbChans))
      ensures ok ==> forall i :: 0 <= i < |vbs| ==> Id(ks, vbs[i]) in vbChans
      ensures ok ==> shares.Keys == connChans.Keys && Shared(shares, ks, vbs, vbChans)
    {
      shares := map c | c in connChans :: [];
      for i := 0 to |vbs|
        invariant Valid() && SentData(log) == SentData(old(log)) && BoundSoFar(ks, vbs, i, old(vbChans), vbChans)
        invariant shares.Keys == connChans.Keys && Shared(shares, ks, vbs[..i], vbChans)
      {
        ghost var before := vbChans;
        var idx;
        ok, idx := Bind(Id(ks, vbs[i]));
        if !ok {
          Refused(ks, vbs, i, old(vbChans), vbChans);
          return;
        }
        BoundOne(ks, vbs, i, old(vbChans), before, idx);
        SharedNext(shares, ks, vbs, i, before, idx);
        shares := shares[idx := shares[idx] + [vbs[i]]];
      }
      assert vbs[..|vbs|] == vbs;
      ok := true;
    }

    method SendShares(ks: string, shares: map<nat, seq<(nat, nat)>>)
      requires Valid() && shares.Keys == connChans.Keys
      modifies this`connChans, this`log
      ensures Valid() && SentData(log) == SentData(old(log)) && connChans.Keys == old(connChans.Keys)
      ensures forall c :: c in connChans ==> connChans[c] == old(connChans)[c] + [Map(VbMap(ks, shares[c]))]
    {
      var left := connChans.Keys;
      while left != {}
        invariant Valid() && left <= connChans.Keys == old(connChans.Keys) && SentData(log) == SentData(old(log))
        invariant forall c :: c in connChans ==>
                    connChans[c] == if c in left then old(connChans)[c]
                                    else old(connChans)[c] + [Map(VbMap(ks, shares[c]))]
        decreases left
      {
        var c :| c in left;
        PutMap(c, VbMap(ks, shares[c]));
        left := left - {c};
      }
    }
  }
}
