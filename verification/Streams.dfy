/** A deduplicating stream, and queues that feed it without leaving a gap.

    Both listeners deliver the same way: a fixed sequence of wanted messages, a
    stream that drops repeated ids, and a queue of events that may repeat old
    ones after a reconnect or a crash but never skips one. */
module Streams {

  datatype Option<T> = None | Some(value: T)

  function Max(a: nat, b: nat): nat {
    if a < b then b else a
  }

  datatype Message<T> = Message(id: string, body: T)

  function Ids<T(==)>(stream: seq<Message<T>>): set<string> {
    set m <- stream :: m.id
  }

  /** The stream drops a repeated id while it remembers it. */
  function Store<T(==)>(stream: seq<Message<T>>, message: Message<T>, remembered: bool): seq<Message<T>> {
    if remembered && message.id in Ids(stream) then stream else stream + [message]
  }

  /** The stream holds exactly the first n wanted messages; with an unbounded
      duplicate window each exactly once and in commit order. */
  ghost predicate HoldsPrefix<T(!new)>(wanted: seq<Message<T>>, unboundedWindow: bool, stream: seq<Message<T>>, n: nat) {
    && n <= |wanted|
    && (forall m :: m in stream <==> m in wanted[..n])
    && (unboundedWindow ==> stream == wanted[..n])
  }

  ghost predicate DistinctIds<T>(wanted: seq<Message<T>>) {
    forall j, k :: 0 <= j < k < |wanted| ==> wanted[j].id != wanted[k].id
  }

  lemma NewIsUnknown<T(!new)>(wanted: seq<Message<T>>, unbounded: bool, stream: seq<Message<T>>, n: nat)
    requires DistinctIds(wanted) && HoldsPrefix(wanted, unbounded, stream, n) && n < |wanted|
    ensures wanted[n].id !in Ids(stream)
  {
    forall m <- stream ensures m.id != wanted[n].id {
      var k :| 0 <= k < n && wanted[..n][k] == m;
    }
  }

  /** Storing the next wanted message, or one already stored, keeps the stream
      a prefix of what is wanted. */
  lemma StoreKeepsPrefix<T(!new)>(wanted: seq<Message<T>>, unbounded: bool, stream: seq<Message<T>>, n: nat, position: nat, remembered: bool)
    requires DistinctIds(wanted) && HoldsPrefix(wanted, unbounded, stream, n)
    requires position < |wanted| && position <= n
    requires unbounded ==> remembered
    ensures HoldsPrefix(wanted, unbounded, Store(stream, wanted[position], remembered), Max(n, position + 1))
  {
    if position < n {
      assert wanted[..n][position] == wanted[position];
      assert wanted[position] in stream;
      assert wanted[position].id in Ids(stream);
    } else {
      NewIsUnknown(wanted, unbounded, stream, n);
      assert wanted[..n + 1] == wanted[..n] + [wanted[n]];
    }
  }

  // ---------------------------------------------------------------------------
  // Queues that leave no gap

  /** Starting with the first n changes stored, storing those at positions `ps`
      in order never skips one. */
  ghost predicate Contiguous(n: nat, ps: seq<nat>)
    decreases |ps|
  {
    ps == [] || (ps[0] <= n && Contiguous(Max(n, ps[0] + 1), ps[1..]))
  }

  /** How many are stored once all of `ps` are. */
  ghost function Reach(n: nat, ps: seq<nat>): (r: nat)
    ensures r >= n
    decreases |ps|
  {
    if ps == [] then n else Reach(Max(n, ps[0] + 1), ps[1..])
  }

  lemma {:induction false} Extend(n: nat, ps: seq<nat>, p: nat)
    requires Contiguous(n, ps) && p <= Reach(n, ps)
    ensures Contiguous(n, ps + [p])
    ensures Reach(n, ps + [p]) == Max(Reach(n, ps), p + 1)
    decreases |ps|
  {
    if ps == [] {
      assert ps + [p] == [p];
    } else {
      assert (ps + [p])[1..] == ps[1..] + [p];
      Extend(Max(n, ps[0] + 1), ps[1..], p);
    }
  }

  lemma {:induction false} Weaken(n: nat, n': nat, ps: seq<nat>)
    requires n <= n'
    ensures Contiguous(n, ps) ==> Contiguous(n', ps)
    ensures Reach(n, ps) <= Reach(n', ps)
    decreases |ps|
  {
    if ps == [] {
    } else {
      Weaken(Max(n, ps[0] + 1), Max(n', ps[0] + 1), ps[1..]);
    }
  }

  /** Reach of the events handed up to `last`, of which `acked` are done. */
  ghost function ReachTo(n: nat, log: seq<nat>, acked: nat, last: nat): (r: nat)
    requires last <= |log|
    ensures r >= n
  {
    if last <= acked then n else Reach(n, log[acked..last])
  }

  lemma ReachToWeaken(n: nat, n': nat, log: seq<nat>, acked: nat, last: nat)
    requires n <= n' && last <= |log|
    ensures ReachTo(n, log, acked, last) <= ReachTo(n', log, acked, last)
  {
    if last > acked {
      Weaken(n, n', log[acked..last]);
    }
  }

  lemma ReachToAck(n: nat, log: seq<nat>, acked: nat, last: nat)
    requires last <= |log| && acked < |log| && log[acked] <= n
    ensures ReachTo(n, log, acked, last) <= ReachTo(Max(n, log[acked] + 1), log, acked + 1, last)
  {
    if last > acked {
      var rest := log[acked..last];
      assert rest[0] == log[acked] && rest[1..] == log[acked + 1..last];
      assert Reach(n, rest) == Reach(Max(n, rest[0] + 1), rest[1..]);
    }
  }

  lemma ReachToHand(n: nat, log: seq<nat>, acked: nat, last: nat, p: nat)
    requires last <= |log|
    ensures ReachTo(n, log + [p], acked, last) == ReachTo(n, log, acked, last)
  {
    if last > acked {
      assert (log + [p])[acked..last] == log[acked..last];
    }
  }
}
