/**
  One flush that runs alone in the concurrent system does what the sequential code does: against
  a fixed server it acknowledges and deletes exactly the longest accepted prefix of its snapshot.
 */
module SoloFlush {
  import opened OfflineQueue
  import opened FlushSystem
  import opened OfflineClient
  import FlushTheorems

  /** The server's answer to every item from position k on; answers after a refusal go nowhere. */
  function Replies(t: nat, items: seq<Row>, server: string -> Reply, k: nat): seq<Action>
    requires k <= |items|
    decreases |items| - k
  {
    if k == |items| then [] else [FlushReply(t, server(items[k].payload))] + Replies(t, items, server, k + 1)
  }

  function AcksOf(t: nat, items: seq<Row>): seq<Ack> {
    seq(|items|, i requires 0 <= i < |items| => Ack(items[i].id, t))
  }

  /** A flush that is past posting ignores replies. */
  lemma {:induction false} LateRepliesAreIgnored(s: State, t: nat, items: seq<Row>, server: string -> Reply, k: nat)
    requires k <= |items| && t in s.threads && !s.threads[t].Posting? && !s.threads[t].Sending?
    ensures Run(s, Replies(t, items, server, k)) == s
    decreases |items| - k
  {
    if k < |items| {
      LateRepliesAreIgnored(s, t, items, server, k + 1);
      assert Replies(t, items, server, k)[1..] == Replies(t, items, server, k + 1);
    }
  }

  /** The flush has acknowledged the first n items and is done posting. */
  ghost predicate Posted(s: State, s': State, t: nat, base: int, items: seq<Row>, n: nat, k: nat)
    requires k <= n <= |items|
  {
    && s'.table == s.table && s'.history == s.history && s'.overlaps == s.overlaps
    && s'.acks == s.acks + AcksOf(t, items[k..n])
    && s'.threads == s.threads[t := if n == 0 then Finished(base, items, [], Completed)
                                    else Deleting(base, items, Ids(items[..n]))]
  }

  lemma {:induction false} RepliesPostLongestPrefix(s: State, t: nat, base: int, items: seq<Row>,
      server: string -> Reply,
                                                    n: nat, k: nat)
    requires LongestAccepted(FixedServer(server), items, n) && k <= n && k < |items|
    requires t in s.threads && s.threads[t] == Posting(base, items, Ids(items[..k]))
    ensures Posted(s, Run(s, Replies(t, items, server, k)), t, base, items, n, k)
    decreases |items| - k
  {
    hide Is2xx, Acknowledges;
    SuccessIs2xx(server(items[k].payload));
    var actions := Replies(t, items, server, k);
    var s1 := Step(s, actions[0]);
    assert actions[1..] == Replies(t, items, server, k + 1);
    assert Accepted(FixedServer(server), items, k) == Acknowledges(server(items[k].payload));
    if k < n {
      assert items[..k + 1] == items[..k] + [items[k]];
      assert Ids(items[..k]) + [items[k].id] == Ids(items[..k + 1]);
      if k + 1 < |items| {
        RepliesPostLongestPrefix(s1, t, base, items, server, n, k + 1);
      }
      assert AcksOf(t, items[k..n]) == [Ack(items[k].id, t)] + AcksOf(t, items[k + 1..n]);
    } else {
      LateRepliesAreIgnored(s1, t, items, server, k + 1);
      assert AcksOf(t, items[k..n]) == [];
    }
  }

  /** The whole schedule of a flush that meets no other call. */
  function Schedule(t: nat, rows: seq<Row>, server: string -> Reply): seq<Action> {
    [StartFlush(t, StopsAfter(|rows|))] + (Replies(t, rows, server, 0) + [Delete(t, NoFault)])
  }

  lemma FlushAloneTakesLongestPrefix(s: State, t: nat, server: string -> Reply, n: nat)
    requires Inv(s) && t !in s.threads
    requires LongestAccepted(FixedServer(server), s.table.rows, n)
    ensures var s' := Run(s, Schedule(t, s.table.rows, server));
            && s'.table == s.table.(rows := s.table.rows[n..])
            && s'.acks == s.acks + AcksOf(t, s.table.rows[..n])
            && t in s'.threads && s'.threads[t].Finished? && s'.threads[t].ending == Completed
            && CleanFlush(server, s.table.rows, |s'.threads[t].flushed|, s'.table.rows)
  {
    hide AckInv, AckedUpTo, ThreadsOk, Is2xx, Acknowledges;
    var rows := s.table.rows;
    var replies := Replies(t, rows, server, 0);
    var s1 := Step(s, StartFlush(t, StopsAfter(|rows|)));
    assert Schedule(t, rows, server)[1..] == replies + [Delete(t, NoFault)];
    FlushTheorems.RunConcat(s1, replies, [Delete(t, NoFault)]);
    var s2 := Run(s1, replies);
    assert [Delete(t, NoFault)][1..] == [];
    assert Run(s, Schedule(t, rows, server)) == Step(s2, Delete(t, NoFault));
    if rows == [] {
      LateRepliesAreIgnored(s1, t, rows, server, 0);
    } else {
      assert rows[..0] == [] && Ids(rows[..0]) == [];
      RepliesPostLongestPrefix(s1, t, Released(s), rows, server, n, 0);
      DeletePrefix(s.table, n);
      assert rows[0..n] == rows[..n];
    }
  }
}
