/**
  The agent's client as sequential code: `Transmit`, one `FlushOfflineCache` call and the
  background flusher's loop, over the offline queue. The network and the context are parameters;
  what a failed request construction does is what an unreachable host does.
 */
module OfflineClient {
  import opened OfflineQueue
  import opened FlushSystem

  /** Is the context done before item i, and how does the post of item i end? */
  datatype World = World(done: nat -> bool, reply: (nat, string) -> Reply)

  datatype FlushError = NoError | SnapshotError | ContextError | DeleteError

  datatype Tick = Tick(cursor: Cursor, world: World, fault: DeleteFault)

  /** Stated apart from what the program looks at: the first digit of the status is 2. */
  predicate Is2xx(reply: Reply) {
    reply.Status? && reply.code / 100 == 2
  }

  lemma SuccessIs2xx(reply: Reply)
    ensures Acknowledges(reply) <==> Is2xx(reply)
  {
  }

  predicate Accepted(world: World, snapshot: seq<Row>, i: nat)
    requires i < |snapshot|
  {
    !world.done(i) && Is2xx(world.reply(i, snapshot[i].payload))
  }

  /** `count` is the length of the longest prefix of the snapshot that is accepted item by item. */
  ghost predicate LongestAccepted(world: World, snapshot: seq<Row>, count: nat) {
    && count <= |snapshot|
    && (forall i :: 0 <= i < count ==> Accepted(world, snapshot, i))
    && (count < |snapshot| ==> !Accepted(world, snapshot, count))
  }

  /** Nothing stands in the way of this flush and it reads at least one row. */
  ghost predicate GoodTick(tick: Tick) {
    && tick.cursor.StopsAfter? && tick.cursor.count > 0
    && tick.fault.NoFault?
    && (forall i: nat :: !tick.world.done(i))
    && (forall i: nat, p: string :: Is2xx(tick.world.reply(i, p)))
  }

  lemma DeletePrefix(table: Table, count: nat)
    requires ValidTable(table) && count <= |table.rows|
    ensures Without(table.rows, Elements(Ids(table.rows[..count]))) == table.rows[count..]
  {
    var ids := Ids(table.rows[..count]);
    forall i | 0 <= i < count ensures table.rows[i].id in Elements(ids) {
      assert ids[i] == table.rows[i].id;
    }
    WithoutPrefix(table.rows, Elements(ids), count);
  }

  class Client {
    const queue: SQLiteQueue?

    ghost predicate Valid()
      reads this, queue
    {
      queue != null ==> queue.Valid()
    }

    constructor (queue: SQLiteQueue?)
      requires queue != null ==> queue.Valid()
      ensures Valid() && this.queue == queue
    {
      this.queue := queue;
    }

    /** A payload that is not acknowledged goes to the end of the queue, if there is a queue and it takes it. */
    method Transmit(payload: string, reply: Reply, now: int, storeFails: bool) returns (ok: bool)
      requires Valid()
      modifies queue
      ensures Valid()
      ensures ok <==> reply.Status? && 200 <= reply.code <= 299
      ensures ok <==> Is2xx(reply)
      ensures queue != null && !ok && !storeFails && old(queue.table.nextId) <= MAX_ROWID ==>
                queue.table.rows == old(queue.table.rows) + [Row(old(queue.table.nextId), payload, now)]
      ensures queue != null ==>
                (queue.table == old(queue.table) <==> ok || storeFails || old(queue.table.nextId) > MAX_ROWID)
    {
      if Acknowledges(reply) {
        return true;
      }
      if queue != null {
        var _ := queue.Enqueue(payload, now, storeFails);
      }
      return false;
    }

    /**
      The count is the longest accepted prefix of the snapshot. Without an error exactly that
      prefix leaves the queue; on cancellation nothing does, whatever was acknowledged.
     */
    method FlushOfflineCache(cursor: Cursor, world: World, fault: DeleteFault) returns (count: nat, err: FlushError)
      requires Valid()
      modifies queue
      ensures Valid()
      ensures queue == null ==> count == 0 && err == NoError
      ensures queue != null ==>
                var snapshot := Snapshot(old(queue.table.rows), cursor);
                && (err == SnapshotError <==> snapshot.None?)
                && (snapshot.None? ==> count == 0 && queue.table == old(queue.table))
                && (snapshot.Some? ==>
                      && LongestAccepted(world, snapshot.value, count)
                      && (err == ContextError <==> count < |snapshot.value| && world.done(count))
                      && (err == DeleteError <==>
                            !(count < |snapshot.value| && world.done(count)) && !DeleteReportsOk(fault, count)))
      ensures queue != null && err == NoError ==>
                count <= |old(queue.table.rows)| && queue.table.rows == old(queue.table.rows)[count..]
      ensures queue != null && err == ContextError ==> queue.table == old(queue.table)
      ensures queue != null && err == DeleteError ==>
                queue.table.rows == if fault.CommitReplyLost? && count <= |old(queue.table.rows)|
                                    then old(queue.table.rows)[count..] else old(queue.table.rows)
    {
      hide Is2xx, Acknowledges, Without;
      if queue == null {
        return 0, NoError;
      }
      var items := queue.DequeueAll(cursor);
      if items.None? {
        return 0, SnapshotError;
      }
      if items.value == [] {
        return 0, NoError;
      }
      var flushedIds: seq<int> := [];
      var i := 0;
      while i < |items.value|
        invariant 0 <= i <= |items.value|
        invariant flushedIds == Ids(items.value[..i])
        invariant forall j :: 0 <= j < i ==> Accepted(world, items.value, j)
        invariant queue.table == old(queue.table)
      {
        SuccessIs2xx(world.reply(i, items.value[i].payload));
        if world.done(i) {
          return |flushedIds|, ContextError;
        }
        if !Acknowledges(world.reply(i, items.value[i].payload)) {
          break;
        }
        flushedIds := flushedIds + [items.value[i].id];
        assert items.value[..i + 1] == items.value[..i] + [items.value[i]];
        i := i + 1;
      }
      assert items.value[..i] == queue.table.rows[..i];
      DeletePrefix(queue.table, i);
      if |flushedIds| > 0 {
        var ok := queue.Delete(flushedIds, fault);
        if !ok {
          return |flushedIds|, DeleteError;
        }
      }
      return |flushedIds|, NoError;
    }

    /**
      The poll loop: only whole prefixes ever leave the queue, so its order is kept; and good
      ticks, one per queued row at most, empty it.
     */
    method BackgroundFlusher(ticks: seq<Tick>) returns (ghost released: nat)
      requires Valid() && queue != null
      modifies queue
      ensures Valid()
      ensures released <= |old(queue.table.rows)| && queue.table.rows == old(queue.table.rows)[released..]
      ensures (forall i :: 0 <= i < |ticks| ==> GoodTick(ticks[i])) && |old(queue.table.rows)| <= |ticks|
              ==> queue.table.rows == []
    {
      hide Is2xx, Acknowledges, Without;
      released := 0;
      var i := 0;
      while i < |ticks|
        invariant 0 <= i <= |ticks| && Valid()
        invariant released <= |old(queue.table.rows)|
        invariant queue.table.rows == old(queue.table.rows)[released..]
        invariant (forall j :: 0 <= j < i ==> GoodTick(ticks[j])) ==> i <= released || queue.table.rows == []
      {
        var count := queue.Count();
        if count > 0 {
          ghost var before := queue.table.rows;
          var flushed, err := FlushOfflineCache(ticks[i].cursor, ticks[i].world, ticks[i].fault);
          ghost var gone := |before| - |queue.table.rows|;
          assert queue.table.rows == before[gone..];
          assert GoodTick(ticks[i]) ==> gone > 0;
          released := released + gone;
        }
        i := i + 1;
      }
    }
  }

  // ----- a fixed server -----

  function FixedServer(server: string -> Reply): World {
    World(_ => false, (_, p) => server(p))
  }

  /** A complete, error-free flush against a server that always answers a payload the same way. */
  ghost predicate CleanFlush(server: string -> Reply, before: seq<Row>, count: nat, after: seq<Row>) {
    LongestAccepted(FixedServer(server), before, count) && after == before[count..]
  }

  /** The contract of `FlushOfflineCache` is a clean flush when the snapshot is complete. */
  method FlushAgainst(client: Client, server: string -> Reply) returns (count: nat)
    requires client.Valid() && client.queue != null
    modifies client.queue
    ensures client.Valid()
    ensures CleanFlush(server, old(client.queue.table.rows), count, client.queue.table.rows)
  {
    var err;
    var cursor := StopsAfter(|client.queue.table.rows|);
    count, err := client.FlushOfflineCache(cursor, FixedServer(server), NoFault);
  }

  /** Against the same server the next flush delivers nothing. */
  lemma SecondFlushDeliversNothing(server: string -> Reply, r0: seq<Row>, n1: nat, r1: seq<Row>, n2: nat, r2: seq<Row>)
    requires CleanFlush(server, r0, n1, r1) && CleanFlush(server, r1, n2, r2)
    ensures n2 == 0 && r2 == r1
  {
    if n1 < |r0| {
      assert Accepted(FixedServer(server), r1, 0) == Accepted(FixedServer(server), r0, n1);
    }
  }

  /** A clean flush empties the queue exactly when the server accepts every queued payload; a
      payload it always refuses keeps everything from itself on in the queue. */
  lemma DrainsExactlyWhenAllAccepted(server: string -> Reply, before: seq<Row>, count: nat, after: seq<Row>)
    requires CleanFlush(server, before, count, after)
    ensures after == [] <==> forall i :: 0 <= i < |before| ==> Is2xx(server(before[i].payload))
    ensures forall i :: 0 <= i < |before| && !Is2xx(server(before[i].payload))
                        ==> count <= i && before[i..] == after[i - count..]
  {
    forall i | 0 <= i < |before|
      ensures Accepted(FixedServer(server), before, i) == Is2xx(server(before[i].payload))
    {
    }
  }
}
