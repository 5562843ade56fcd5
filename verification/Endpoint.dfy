/**
  The router endpoint gathers key-versions by stream and sends what it has gathered when there is
  enough of it, when its flush timer fires, to keep the connection alive, and before it stops.
 */
module Endpoint {
  import opened Common
  import opened StreamNames

  datatype Command = StreamBegin | StreamEnd | Sync | Other

  /** The key-versions of one mutation: its commands, and the rest of it as one number. */
  datatype KeyVersions = KeyVersions(commands: seq<Command>, content: nat)

  datatype Data = Data(keyspaceId: string, vbno: nat, vbuuid: nat, session: nat, kv: Option<KeyVersions>)

  datatype Batch = Batch(keyspaceId: string, vbno: nat, vbuuid: nat, session: nat, kvs: seq<KeyVersions>)

  function Uuid(b: Batch): string { StreamId(b.keyspaceId, b.vbno, b.session) }

  type Buffers = map<string, Batch>

  // ---- what a stream has had -------------------------------------------------------------------

  /** The key-versions of a stream in a packet. */
  function InPacket(packet: seq<Batch>, u: string): seq<KeyVersions>
  {
    if packet == [] then []
    else
      var b := packet[|packet| - 1];
      InPacket(packet[..|packet| - 1], u) + (if Uuid(b) == u then b.kvs else [])
  }

  /** The key-versions of a stream in the packets sent, in order. */
  function Delivered(packets: seq<seq<Batch>>, u: string): seq<KeyVersions>
  {
    if packets == [] then [] else Delivered(packets[..|packets| - 1], u) + InPacket(packets[|packets| - 1], u)
  }

  function Buffered(vbs: Buffers, u: string): seq<KeyVersions> { if u in vbs then vbs[u].kvs else [] }

  /** History: the non-empty key-versions handed to the buffer, each with its stream. */
  function Added(history: seq<(string, KeyVersions)>, u: string): seq<KeyVersions>
  {
    if history == [] then []
    else
      var e := history[|history| - 1];
      Added(history[..|history| - 1], u) + (if e.0 == u then [e.1] else [])
  }

  predicate Filed(vbs: Buffers) { forall u :: u in vbs ==> Uuid(vbs[u]) == u && vbs[u].kvs != [] }

  /** Nothing is lost, doubled or put out of order within a stream. */
  ghost predicate Conserved(sent: seq<seq<Batch>>, failed: seq<Batch>, vbs: Buffers,
                            history: seq<(string, KeyVersions)>)
  {
    forall u :: AllThere(sent, failed, vbs, history, u)
  }

  ghost predicate AllThere(sent: seq<seq<Batch>>, failed: seq<Batch>, vbs: Buffers,
                           history: seq<(string, KeyVersions)>, u: string)
  {
    Delivered(sent, u) + InPacket(failed, u) + Buffered(vbs, u) == Added(history, u)
  }

  // ---- which vbuckets are streaming --------------------------------------------------------------

  type Streaming = map<string, set<nat>>

  predicate IsStreaming(m: Streaming, ks: string, vb: nat) { ks in m && vb in m[ks] }

  function Tracked(m: Streaming, ks: string, vb: nat, cmd: Command): Streaming
  {
    match cmd
    case StreamBegin => m[ks := (if ks in m then m[ks] else {}) + {vb}]
    case StreamEnd =>
      var rest := (if ks in m then m[ks] else {}) - {vb};
      if rest == {} then m - {ks} else m[ks := rest]
    case _ => m
  }

  /** History: the commands seen, each with its vbucket; the last begin or end of a vbucket decides. */
  function LastBegun(commands: seq<(string, nat, Command)>, ks: string, vb: nat): bool
  {
    if commands == [] then false
    else
      var c := commands[|commands| - 1];
      if c.0 == ks && c.1 == vb && c.2.StreamBegin? then true
      else if c.0 == ks && c.1 == vb && c.2.StreamEnd? then false
      else LastBegun(commands[..|commands| - 1], ks, vb)
  }

  function Tagged(ks: string, vb: nat, cmds: seq<Command>): seq<(string, nat, Command)>
  {
    if cmds == [] then [] else Tagged(ks, vb, cmds[..|cmds| - 1]) + [(ks, vb, cmds[|cmds| - 1])]
  }

  ghost predicate Follows(m: Streaming, commands: seq<(string, nat, Command)>)
  {
    && (forall ks :: ks in m ==> m[ks] != {})
    && (forall ks, vb :: IsStreaming(m, ks, vb) <==> LastBegun(commands, ks, vb))
  }

  lemma TrackedFollows(m: Streaming, commands: seq<(string, nat, Command)>, ks: string, vb: nat, cmd: Command)
    requires Follows(m, commands)
    ensures Follows(Tracked(m, ks, vb, cmd), commands + [(ks, vb, cmd)])
  {
    var all := commands + [(ks, vb, cmd)];
    assert all[..|all| - 1] == commands;
    forall k, v ensures IsStreaming(Tracked(m, ks, vb, cmd), k, v) <==> LastBegun(all, k, v) {
      assert IsStreaming(m, k, v) <==> LastBegun(commands, k, v);
      var rest := (if ks in m then m[ks] else {}) - {vb};
      assert v in rest <==> IsStreaming(m, ks, v) && v != vb;
    }
  }

  // ---- adding and flushing -----------------------------------------------------------------------

  function WithKv(vbs: Buffers, d: Data, kv: KeyVersions): Buffers
  {
    var u := StreamId(d.keyspaceId, d.vbno, d.session);
    var b := if u in vbs then vbs[u] else Batch(d.keyspaceId, d.vbno, d.vbuuid, d.session, []);
    vbs[u := b.(kvs := b.kvs + [kv])]
  }

  /** Whether there is anything to buffer. */
  predicate HasCommands(d: Data) { d.kv.Some? && d.kv.value.commands != [] }

  /** The batch of the mutation's stream has the key-versions behind what it had; no other batch is touched. */
  ghost predicate Grows(was: Buffers, now: Buffers, d: Data)
  {
    if HasCommands(d) then
      var u := StreamId(d.keyspaceId, d.vbno, d.session);
      && now.Keys == was.Keys + {u}
      && now[u] == Batch(d.keyspaceId, d.vbno, if u in was then was[u].vbuuid else d.vbuuid, d.session,
                         Buffered(was, u) + [d.kv.value])
      && forall x :: x in was && x != u ==> now[x] == was[x]
    else now == was
  }

  lemma WithKvGrows(vbs: Buffers, d: Data)
    requires Filed(vbs) && HasCommands(d)
    ensures Grows(vbs, WithKv(vbs, d, d.kv.value), d)
  {
    var u := StreamId(d.keyspaceId, d.vbno, d.session);
    if u in vbs { StreamIdsApart(vbs[u].keyspaceId, vbs[u].vbno, vbs[u].session, d.keyspaceId, d.vbno, d.session); }
  }

  lemma AddConserves(sent: seq<seq<Batch>>, vbs: Buffers, history: seq<(string, KeyVersions)>, d: Data, kv: KeyVersions)
    requires Conserved(sent, [], vbs, history) && Filed(vbs)
    ensures var u := StreamId(d.keyspaceId, d.vbno, d.session);
      Conserved(sent, [], WithKv(vbs, d, kv), history + [(u, kv)]) && Filed(WithKv(vbs, d, kv))
  {
    var u := StreamId(d.keyspaceId, d.vbno, d.session);
    var h, n := history + [(u, kv)], WithKv(vbs, d, kv);
    assert h[..|h| - 1] == history;
    forall x ensures AllThere(sent, [], n, h, x) {
      assert AllThere(sent, [], vbs, history, x);
      assert Delivered(sent, x) + [] == Delivered(sent, x);
    }
  }

  /** The packet holds the key-versions of the buffer, stream by stream. */
  ghost predicate Packs(packet: seq<Batch>, vbs: Buffers) { forall u :: InPacket(packet, u) == Buffered(vbs, u) }

  /** The packet is the batches of the buffer, each once. */
  ghost predicate Lists(packet: seq<Batch>, vbs: Buffers)
  {
    && |packet| == |vbs| && NoDup(packet)
    && forall b :: InBuffer(vbs, b) <==> b in packet
  }

  predicate InBuffer(vbs: Buffers, b: Batch) { Uuid(b) in vbs && vbs[Uuid(b)] == b }

  /** A flush puts one packet with the whole buffer on the connection, unless nothing was counted or the send fails. */
  ghost predicate Flushed(any: bool, vbs: Buffers, was: seq<seq<Batch>>, sendFails: bool,
                          sent: seq<seq<Batch>>, failed: seq<Batch>, packet: seq<Batch>)
  {
    if !any then sent == was && failed == []
    else
      && Lists(packet, vbs)
      && if sendFails then sent == was && failed == packet else sent == was + [packet] && failed == []
  }

  lemma ListsOne(packet: seq<Batch>, vbs: Buffers, left: set<string>, u: string)
    requires Filed(vbs) && u in left && left <= vbs.Keys && NoDup(packet) && |packet| + |left| == |vbs|
    requires forall b :: b in packet <==> InBuffer(vbs, b) && Uuid(b) !in left
    ensures NoDup(packet + [vbs[u]]) && |packet + [vbs[u]]| + |left - {u}| == |vbs|
    ensures forall b :: b in packet + [vbs[u]] <==> InBuffer(vbs, b) && Uuid(b) !in left - {u}
  {
    assert vbs[u] !in packet;
  }

  lemma FlushConserves(sent: seq<seq<Batch>>, vbs: Buffers, history: seq<(string, KeyVersions)>, packet: seq<Batch>)
    requires Conserved(sent, [], vbs, history) && Packs(packet, vbs)
    ensures Conserved(sent + [packet], [], map[], history)
    ensures Conserved(sent, packet, map[], history)
  {
    var all := sent + [packet];
    assert all[..|all| - 1] == sent;
    forall x ensures Delivered(all, x) + [] + [] == Added(history, x)
             ensures Delivered(sent, x) + InPacket(packet, x) + [] == Added(history, x) {
      assert AllThere(sent, [], vbs, history, x);
      assert Delivered(sent, x) + [] == Delivered(sent, x);
      assert Delivered(all, x) + [] == Delivered(all, x);
      assert InPacket(packet, x) + [] == InPacket(packet, x);
    }
  }

  lemma PackedOne(packet: seq<Batch>, vbs: Buffers, left: set<string>, u: string)
    requires Filed(vbs) && u in left && left <= vbs.Keys
    requires forall x :: InPacket(packet, x) == if x in left then [] else Buffered(vbs, x)
    ensures forall x :: InPacket(packet + [vbs[u]], x) == if x in left - {u} then [] else Buffered(vbs, x)
  {
    var all := packet + [vbs[u]];
    assert all[..|all| - 1] == packet;
    forall x ensures InPacket(all, x) == if x in left - {u} then [] else Buffered(vbs, x) {
      assert InPacket(packet, x) + [] == InPacket(packet, x) && [] + vbs[u].kvs == vbs[u].kvs;
    }
  }

  // ---- the endpoint --------------------------------------------------------------------------------

  class Endpoint {
    var vbs: Buffers
    var streaming: Streaming             // keyspaceIdVBMap
    var messageCount: nat
    var bufferSize: int
    var flushTickActive: bool
    var running: bool                    // the flush timer runs
    var pending: bool                    // it has fired, and nobody has received the tick
    var stopped: bool
    var sent: seq<seq<Batch>>            // the packets the connection has taken
    ghost var failed: seq<Batch>         // the packet it has not taken
    ghost var history: seq<(string, KeyVersions)>
    ghost var commands: seq<(string, nat, Command)>

    ghost predicate Valid()
      reads this`vbs, this`sent, this`failed, this`history, this`streaming, this`commands, this`stopped
    {
      && Filed(vbs) && Conserved(sent, failed, vbs, history) && Follows(streaming, commands)
      && (!stopped ==> failed == [])
    }

    /** What is buffered will be flushed: it is counted, and the timer is armed and runs or has fired. */
    ghost predicate Armed()
      reads this
    {
      && (vbs != map[] ==> messageCount > 0)
      && (vbs != map[] && !stopped ==> flushTickActive)
      && (flushTickActive && !stopped ==> running || pending)
    }

    constructor (size: int)
      ensures Valid() && Armed() && !stopped && history == [] && commands == [] && sent == [] && vbs == map[]
      ensures messageCount == 0 && bufferSize == size && flushTickActive && running && !pending
    {
      vbs, streaming, messageCount, bufferSize := map[], map[], 0, size;
      flushTickActive, running, pending, stopped := true, true, false, false;
      sent, failed, history, commands := [], [], [], [];
    }

    /** What a mutation adds to the history: nothing without key-versions. */
    ghost predicate Extends(h: seq<(string, KeyVersions)>, c: seq<(string, nat, Command)>, d: Data)
      reads this`history, this`commands
    {
      if HasCommands(d) then
        && history == h + [(StreamId(d.keyspaceId, d.vbno, d.session), d.kv.value)]
        && commands == c + Tagged(d.keyspaceId, d.vbno, d.kv.value.commands)
      else history == h && commands == c
    }

    /** addKeyVersions. */
    method AddKeyVersions(d: Data)
      requires Valid() && !stopped
      modifies this`vbs, this`streaming, this`history, this`commands
      ensures Valid() && Extends(old(history), old(commands), d) && Grows(old(vbs), vbs, d)
    {
      if d.kv.Some? && |d.kv.value.commands| > 0 {
        Gather(d);
        Track(d.keyspaceId, d.vbno, d.kv.value.commands);
      }
    }

    method Gather(d: Data)
      requires HasCommands(d) && Filed(vbs) && Conserved(sent, [], vbs, history)
      modifies this`vbs, this`history
      ensures Filed(vbs) && Conserved(sent, [], vbs, history) && Grows(old(vbs), vbs, d)
      ensures history == old(history) + [(StreamId(d.keyspaceId, d.vbno, d.session), d.kv.value)]
    {
      AddConserves(sent, vbs, history, d, d.kv.value);
      WithKvGrows(vbs, d);
      vbs := WithKv(vbs, d, d.kv.value);
      history := history + [(StreamId(d.keyspaceId, d.vbno, d.session), d.kv.value)];
    }

    /** Begins and ends of streams among the commands of a mutation. */
    method Track(ks: string, vb: nat, cmds: seq<Command>)
      requires Follows(streaming, commands)
      modifies this`streaming, this`commands
      ensures Follows(streaming, commands) && commands == old(commands) + Tagged(ks, vb, cmds)
    {
      for i := 0 to |cmds|
        invariant Follows(streaming, commands) && commands == old(commands) + Tagged(ks, vb, cmds[..i])
      {
        assert cmds[..i + 1][..i] == cmds[..i];
        TrackedFollows(streaming, commands, ks, vb, cmds[i]);
        streaming := Tracked(streaming, ks, vb, cmds[i]);
        commands := commands + [(ks, vb, cmds[i])];
      }
      assert cmds[..|cmds|] == cmds;
    }

    /** The buffer's batches in any order. */
    method Pack() returns (packet: seq<Batch>)
      requires Filed(vbs)
      ensures Packs(packet, vbs) && Lists(packet, vbs)
    {
      packet := [];
      var left := vbs.Keys;
      while left != {}
        invariant left <= vbs.Keys && NoDup(packet) && |packet| + |left| == |vbs|
        invariant forall x :: InPacket(packet, x) == if x in left then [] else Buffered(vbs, x)
        invariant forall b :: b in packet <==> InBuffer(vbs, b) && Uuid(b) !in left
        decreases left
      {
        var u :| u in left;
        PackedOne(packet, vbs, left, u);
        ListsOne(packet, vbs, left, u);
        packet := packet + [vbs[u]];
        left := left - {u};
      }
    }

    /** flushBuffers: the buffer is empty afterwards, whether or not the connection takes the packet. */
    method Flush(sendFails: bool) returns (ok: bool, ghost packet: seq<Batch>)
      requires Valid() && !stopped && (vbs != map[] ==> messageCount > 0)
      modifies this`vbs, this`messageCount, this`sent, this`failed
      ensures ok <==> !sendFails || old(messageCount) == 0
      ensures vbs == map[] && messageCount == 0 && Conserved(sent, failed, vbs, history)
      ensures Flushed(old(messageCount) > 0, old(vbs), old(sent), sendFails, sent, failed, packet)
    {
      ok, packet := true, [];
      if messageCount > 0 {
        var pkt := Pack();
        packet := pkt;
        FlushConserves(sent, vbs, history, pkt);
        vbs := map[];
        if sendFails {
          ok, failed := false, pkt;
        } else {
          sent := sent + [pkt];
        }
      }
      messageCount := 0;
    }

    /** A flush that fails ends the loop. */
    method FlushOrStop(sendFails: bool) returns (ghost packet: seq<Batch>)
      requires Valid() && !stopped && (vbs != map[] ==> messageCount > 0)
      modifies this`vbs, this`messageCount, this`sent, this`failed, this`stopped
      ensures Valid() && vbs == map[] && messageCount == 0
      ensures stopped <==> sendFails && old(messageCount) > 0
      ensures Flushed(old(messageCount) > 0, old(vbs), old(sent), sendFails, sent, failed, packet)
    {
      var ok;
      ok, packet := Flush(sendFails);
      if !ok { stopped := true; }
    }

    /** The message is counted and sent with the others. */
    method CountAndFlush(sendFails: bool) returns (ghost packet: seq<Batch>)
      requires Valid() && !stopped
      modifies this`vbs, this`messageCount, this`sent, this`failed, this`stopped
      ensures Valid() && vbs == map[] && messageCount == 0 && (stopped <==> sendFails)
      ensures Flushed(true, old(vbs), old(sent), sendFails, sent, failed, packet)
    {
      messageCount := messageCount + 1;
      packet := FlushOrStop(sendFails);
    }

    /** Fewer messages than the buffer takes: nothing is sent, the timer is armed. */
    ghost predicate Kept(count: nat, ran: bool, active: bool, out: seq<seq<Batch>>)
      reads this
    {
      && messageCount == count + 1 && sent == out && !stopped
      && flushTickActive && running == (ran || !active)
    }

    /**
      The case of run() that takes a mutation. It is buffered and the timer armed, or it makes the
      buffer full and one packet goes out with all that was buffered and the mutation.
     */
    method Send(d: Data, sendFails: bool) returns (ghost full: Buffers, ghost packet: seq<Batch>)
      requires Valid() && Armed() && !stopped
      modifies this`vbs, this`streaming, this`messageCount, this`flushTickActive, this`running, this`stopped, this`sent
      modifies this`failed, this`history, this`commands
      ensures Valid() && Armed() && Extends(old(history), old(commands), d) && Grows(old(vbs), full, d)
      ensures old(messageCount) < bufferSize ==>
                vbs == full && Kept(old(messageCount), old(running), old(flushTickActive), old(sent))
      ensures old(messageCount) >= bufferSize ==>
                && vbs == map[] && messageCount == 0 && (stopped <==> sendFails)
                && Flushed(true, full, old(sent), sendFails, sent, failed, packet)
                && flushTickActive == old(flushTickActive) && running == old(running)
    {
      AddKeyVersions(d);
      full := vbs;
      packet := FlushOrArm(sendFails);
    }

    /** Its second half: the message counts, and is flushed now or by the timer. */
    method FlushOrArm(sendFails: bool) returns (ghost packet: seq<Batch>)
      requires Valid() && !stopped && (flushTickActive ==> running || pending)
      modifies this`vbs, this`messageCount, this`sent, this`failed, this`stopped, this`running, this`flushTickActive
      ensures Valid() && Armed()
      ensures old(messageCount) < bufferSize ==>
                vbs == old(vbs) && Kept(old(messageCount), old(running), old(flushTickActive), old(sent))
      ensures old(messageCount) >= bufferSize ==>
                && vbs == map[] && messageCount == 0 && (stopped <==> sendFails)
                && Flushed(true, old(vbs), old(sent), sendFails, sent, failed, packet)
                && flushTickActive == old(flushTickActive) && running == old(running)
    {
      packet := [];
      if messageCount + 1 > bufferSize {
        packet := CountAndFlush(sendFails);
      } else {
        CountAndArm();
      }
    }

    /** The message is counted and waits for the timer. */
    method CountAndArm()
      requires !stopped
      modifies this`messageCount, this`running, this`flushTickActive
      ensures Kept(old(messageCount), old(running), old(flushTickActive), sent)
    {
      messageCount := messageCount + 1;
      if !flushTickActive { running, flushTickActive := true, true; }
    }

    /** The flush timer fires. */
    method Fire()
      requires Valid() && Armed() && running
      modifies this`running, this`pending
      ensures Valid() && Armed() && pending && !running
    {
      running, pending := false, true;
    }

    /** The case of run() that receives the flush tick. */
    method FlushTick(sendFails: bool) returns (ghost packet: seq<Batch>)
      requires Valid() && Armed() && !stopped && pending
      modifies this`vbs, this`messageCount, this`sent, this`failed, this`stopped, this`pending, this`flushTickActive
      ensures Valid() && Armed() && vbs == map[] && messageCount == 0 && !pending
      ensures (stopped <==> sendFails && old(messageCount) > 0) && (!stopped ==> !flushTickActive)
      ensures Flushed(old(messageCount) > 0, old(vbs), old(sent), sendFails, sent, failed, packet)
    {
      pending := false;
      packet := FlushOrStop(sendFails);
      if !stopped { flushTickActive := false; }
    }

    /** The case of run() for the sync tick: one message for some streaming vbucket, sent at once. */
    method SyncTick(sendFails: bool)
      returns (ghost ks: string, ghost vb: nat, ghost full: Buffers, ghost packet: seq<Batch>)
      requires Valid() && Armed() && !stopped
      modifies this`vbs, this`streaming, this`messageCount, this`stopped, this`sent, this`failed
      modifies this`history, this`commands
      ensures Valid() && Armed()
      ensures old(streaming) == map[] ==>
                && history == old(history) && commands == old(commands) && vbs == old(vbs) && sent == old(sent)
                && messageCount == old(messageCount) && !stopped
      ensures old(streaming) != map[] ==> LastBegun(old(commands), ks, vb) && vbs == map[] && messageCount == 0
      ensures old(streaming) != map[] ==>
                var sync := Data(ks, vb, 0, 0, Some(KeyVersions([Sync], 0)));
                Extends(old(history), old(commands), sync) && Grows(old(vbs), full, sync)
      ensures old(streaming) != map[] ==>
                (stopped <==> sendFails) && Flushed(true, full, old(sent), sendFails, sent, failed, packet)
    {
      full, packet := map[], [];
      if streaming != map[] {
        var keyspaceId :| keyspaceId in streaming;
        var vbno :| vbno in streaming[keyspaceId];
        assert IsStreaming(streaming, keyspaceId, vbno);
        ks, vb := keyspaceId, vbno;
        var sync := Data(keyspaceId, vbno, 0, 0, Some(KeyVersions([Sync], 0)));
        full, packet := SendAtOnce(sync, sendFails);
      } else {
        ks, vb := "", 0;
      }
    }

    /** A mutation that is not kept waiting. */
    method SendAtOnce(d: Data, sendFails: bool) returns (ghost full: Buffers, ghost packet: seq<Batch>)
      requires Valid() && Armed() && !stopped
      modifies this`vbs, this`streaming, this`messageCount, this`stopped, this`sent, this`failed
      modifies this`history, this`commands
      ensures Valid() && Armed() && vbs == map[] && messageCount == 0 && (stopped <==> sendFails)
      ensures Extends(old(history), old(commands), d) && Grows(old(vbs), full, d)
      ensures Flushed(true, full, old(sent), sendFails, sent, failed, packet)
    {
      AddKeyVersions(d);
      full := vbs;
      packet := CountAndFlush(sendFails);
    }

    /** The case of run() that takes new settings; a new timeout restarts the flush timer. */
    method ResetConfig(newSize: Option<int>, newTimeout: bool)
      requires Valid() && Armed() && !stopped
      modifies this`bufferSize, this`running
      ensures Valid() && Armed()
      ensures bufferSize == (if newSize.Some? then newSize.value else old(bufferSize))
      ensures running == (newTimeout || old(running))
    {
      if newSize.Some? { bufferSize := newSize.value; }
      if newTimeout { running := true; }
    }

    /** Close, and the end for lack of activity: what is buffered is sent first. */
    method Stop(sendFails: bool) returns (ghost packet: seq<Batch>)
      requires Valid() && Armed() && !stopped
      modifies this`vbs, this`messageCount, this`sent, this`failed, this`stopped
      ensures Valid() && Armed() && stopped && vbs == map[] && messageCount == 0
      ensures Flushed(old(messageCount) > 0, old(vbs), old(sent), sendFails, sent, failed, packet)
      ensures !sendFails ==> forall u :: Delivered(sent, u) == Added(history, u)
    {
      var ok;
      ok, packet := Flush(sendFails);
      stopped := true;
      if ok { forall u ensures Delivered(sent, u) == Added(history, u) { WholeHistory(sent, history, u); } }
    }
  }

  /** With an empty buffer and no failure, the packets sent are the whole history. */
  lemma WholeHistory(sent: seq<seq<Batch>>, history: seq<(string, KeyVersions)>, u: string)
    requires Conserved(sent, [], map[], history)
    ensures Delivered(sent, u) == Added(history, u)
  {
    assert AllThere(sent, [], map[], history, u);
    assert Delivered(sent, u) + [] + [] == Delivered(sent, u);
  }
}
