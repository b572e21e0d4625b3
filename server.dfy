/**
 * The consumer registry and the "keep only the newest frame" consumers.
 *
 * Threads and locks are abstracted away: every method runs atomically.
 * A consumer owns an unbounded FIFO of frames and a running flag; one
 * iteration of its worker loop takes one frame, drains the rest of the
 * queue so that only the last one survives, and hands that frame on only
 * if the consumer is still running. The pool is an ordered list of
 * consumers that broadcasts each frame to every member.
 */
module Server {

  datatype Option<T> = None | Some(value: T)

  /** The frame a full drain of `q` ends with: its last element, the most recent put. */
  function Latest<F>(q: seq<F>): (r: Option<F>)
    ensures r.None? <==> q == []
    ensures r.Some? ==> r.value in q
  {
    if q == [] then None else Some(q[|q| - 1])
  }

  /** Whatever was queued before, the newest frame is the one put last. */
  lemma LatestIsLastPut<F>(q: seq<F>, puts: seq<F>)
    requires puts != []
    ensures Latest(q + puts) == Latest(puts) == Some(puts[|puts| - 1])
  {
  }

  /** `n` copies of `f`: what a broadcast leaves on a consumer registered `n` times. */
  function Copies<F>(f: F, n: nat): (r: seq<F>)
    ensures |r| == n && forall i :: 0 <= i < n ==> r[i] == f
  {
    seq(n, _ => f)
  }

  /**
   * `list.remove(x)`: the list without its first occurrence of `x`.
   * (The error raised when `x` is absent is modelled by the caller.)
   */
  function RemoveFirst<T(==)>(s: seq<T>, x: T): (r: seq<T>)
    ensures x in s ==> |r| == |s| - 1
    ensures x !in s ==> r == s
    ensures multiset(r) == multiset(s) - multiset{x}
  {
    if s == [] then []
    else
      assert s == [s[0]] + s[1..];
      if s[0] == x then s[1..]
      else [s[0]] + RemoveFirst(s[1..], x)
  }

  /** `RemoveFirst` deletes exactly the element at the first index holding `x`, keeping the rest in order. */
  lemma {:induction false} RemoveFirstAt<T>(s: seq<T>, x: T, i: nat)
    requires i < |s| && s[i] == x && x !in s[..i]
    ensures RemoveFirst(s, x) == s[..i] + s[i + 1..]
  {
    if i > 0 {
      assert s[0] != x by { assert s[0] == s[..i][0]; }
      assert x !in s[1..][..i - 1] by { assert s[1..][..i - 1] == s[..i][1..]; }
      RemoveFirstAt(s[1..], x, i - 1);
      assert s[1..][..i - 1] == s[1..i];
      assert s[..i] == [s[0]] + s[1..i];
    }
  }

  /** Removing a consumer that was just appended undoes the append. */
  lemma RemoveAfterAppend<T>(s: seq<T>, x: T)
    requires x !in s
    ensures RemoveFirst(s + [x], x) == s
  {
    RemoveFirstAt(s + [x], x, |s|);
    assert (s + [x])[..|s|] == s;
  }

  /**
   * `FieldUpdateConsumer`: a worker with an unbounded FIFO of frames and a
   * running flag (the lock guarding the flag is not modelled).
   */
  class FieldUpdateConsumer<F> {
    var running: bool
    var queue: seq<F>

    /** `start`: running, with an empty queue (starting the thread is not modelled). */
    constructor Start()
      ensures running && queue == []
    {
      running := true;
      queue := [];
    }

    /** `running()` */
    method IsRunning() returns (r: bool)
      ensures r == running
    {
      r := running;
    }

    /** `set_running(running)`: the queue is untouched. */
    method SetRunning(b: bool)
      modifies this`running
      ensures running == b
    {
      running := b;
    }

    /** `put(frame)`: `put_nowait` on an unbounded queue always succeeds and appends. */
    method Put(frame: F)
      modifies this`queue
      ensures queue == old(queue) + [frame]
    {
      queue := queue + [frame];
    }

    /**
     * The first half of one `run` iteration: a `get` that yields the head of
     * the queue (or nothing when it is empty), then `get_nowait` until the
     * queue is empty. The frame left over is the most recent put.
     */
    method TakeLatest() returns (frame: Option<F>)
      modifies this`queue
      ensures queue == []
      ensures frame == Latest(old(queue))
    {
      frame := None;
      if queue != [] {
        frame := Some(queue[0]);
        queue := queue[1..];
        while queue != []
          invariant |queue| < |old(queue)|
          invariant queue == old(queue)[|old(queue)| - |queue|..]
          invariant frame == Some(old(queue)[|old(queue)| - |queue| - 1])
          decreases |queue|
        {
          frame := Some(queue[0]);
          queue := queue[1..];
        }
      }
    }

    /**
     * The second half of one `run` iteration: the frame is handed to
     * `process_frame` only when the consumer is still running and a frame
     * was obtained. The result is the frame handed on, if any.
     */
    method ProcessIfRunning(frame: Option<F>) returns (processed: Option<F>)
      ensures processed.Some? <==> running && frame.Some?
      ensures processed.Some? ==> processed == frame
    {
      var stillRunning := IsRunning();
      processed := None;
      if stillRunning {
        if frame.Some? {
          processed := frame;
        }
      }
    }

    /**
     * One turn of the `run` loop: when the loop guard `running()` fails the
     * worker stops and the queue is left alone; otherwise the newest frame
     * is taken and processed.
     */
    method RunStep() returns (stopped: bool, processed: Option<F>)
      modifies this`queue
      ensures stopped == !old(running)
      ensures queue == if stopped then old(queue) else []
      ensures processed == if stopped then None else Latest(old(queue))
    {
      var r := IsRunning();
      if !r {
        return true, None;
      }
      stopped := false;
      var frame := TakeLatest();
      processed := ProcessIfRunning(frame);
    }
  }

  /**
   * `ConsumerPool`: the ordered list of registered consumers. Of its lock
   * only one fact is kept: `lockHeld`, true once a call has left the lock
   * acquired. Every method starts by acquiring the lock, so once it is held
   * a call never returns; that is why they all require `!lockHeld`.
   */
  class ConsumerPool<F> {
    var consumers: seq<FieldUpdateConsumer<F>>
    var lockHeld: bool

    constructor ()
      ensures consumers == [] && !lockHeld
    {
      consumers := [];
      lockHeld := false;
    }

    /** `add_consumer`: appends; the earlier members keep their order. */
    method AddConsumer(consumer: FieldUpdateConsumer<F>)
      requires !lockHeld
      modifies this
      ensures consumers == old(consumers) + [consumer] && !lockHeld
    {
      consumers := consumers + [consumer];
    }

    /**
     * `remove_consumer` as written: `list.remove` deletes the first
     * occurrence. On an unregistered consumer it raises `ValueError`
     * (`ok` false) while the lock is acquired and nothing releases it, so
     * the membership is unchanged but the lock stays held for good.
     */
    method RemoveConsumer(consumer: FieldUpdateConsumer<F>) returns (ok: bool)
      requires !lockHeld
      modifies this
      ensures ok <==> consumer in old(consumers)
      ensures consumers == RemoveFirst(old(consumers), consumer)
      ensures lockHeld <==> !ok
    {
      ok := consumer in consumers;
      if ok {
        consumers := RemoveFirst(consumers, consumer);
      } else {
        lockHeld := true;
      }
    }

    /**
     * `remove_consumer` with the lock released on the error path too (a
     * `try`/`finally` around `list.remove`): the same membership change and
     * error report, and the pool stays usable.
     */
    method RemoveConsumerReleasingLock(consumer: FieldUpdateConsumer<F>) returns (ok: bool)
      requires !lockHeld
      modifies this
      ensures ok <==> consumer in old(consumers)
      ensures consumers == RemoveFirst(old(consumers), consumer)
      ensures !lockHeld
    {
      ok := consumer in consumers;
      if ok {
        consumers := RemoveFirst(consumers, consumer);
      }
    }

    /** `stop_all`: clears every member's running flag; queues and membership are untouched. */
    method StopAll()
      requires !lockHeld
      modifies consumers
      ensures forall c :: c in consumers ==> !c.running && c.queue == old(c.queue)
    {
      for i := 0 to |consumers|
        invariant forall c :: c in consumers[..i] ==> !c.running
        invariant forall c :: c in consumers ==> c.queue == old(c.queue)
      {
        consumers[i].SetRunning(false);
      }
    }

    /**
     * `put`: every member gets the frame once per time it is registered,
     * in list order; running flags and membership are untouched.
     */
    method Put(frame: F)
      requires !lockHeld
      modifies consumers
      ensures forall c :: c in consumers ==>
        c.queue == old(c.queue) + Copies(frame, multiset(consumers)[c]) && c.running == old(c.running)
    {
      for i := 0 to |consumers|
        invariant forall c :: c in consumers ==>
          c.queue == old(c.queue) + Copies(frame, multiset(consumers[..i])[c]) && c.running == old(c.running)
      {
        assert consumers[..i + 1] == consumers[..i] + [consumers[i]];
        consumers[i].Put(frame);
      }
      assert consumers[..|consumers|] == consumers;
    }
  }

  /** A consumer that appears once in a list gets a broadcast frame exactly once. */
  lemma BroadcastOnce<F>(consumers: seq<FieldUpdateConsumer<F>>, i: nat, frame: F)
    requires i < |consumers| && consumers[i] !in consumers[..i] + consumers[i + 1..]
    ensures Copies(frame, multiset(consumers)[consumers[i]]) == [frame]
  {
    var c := consumers[i];
    assert consumers == consumers[..i] + [c] + consumers[i + 1..];
    assert multiset(consumers[..i] + consumers[i + 1..])[c] == 0;
  }

  /** `running()` reports the value most recently given to `set_running`. */
  method SetRunningScenario<F>(first: bool, second: bool) returns (r: bool)
    ensures r == second
  {
    var c := new FieldUpdateConsumer<F>.Start();
    c.SetRunning(first);
    c.SetRunning(second);
    r := c.IsRunning();
  }

  /** Three puts with no take in between: the next iteration processes only the third. */
  method CoalescingScenario<F>(f1: F, f2: F, f3: F) returns (processed: Option<F>)
    ensures processed == Some(f3)
  {
    var c := new FieldUpdateConsumer<F>.Start();
    c.Put(f1);
    c.Put(f2);
    c.Put(f3);
    var stopped;
    stopped, processed := c.RunStep();
  }

  /** A consumer stopped between the dequeue and the second `running()` check processes nothing. */
  method StoppedBeforeProcessScenario<F>(f: F) returns (processed: Option<F>)
    ensures processed == None
  {
    var c := new FieldUpdateConsumer<F>.Start();
    c.Put(f);
    var frame := c.TakeLatest();
    c.SetRunning(false);
    processed := c.ProcessIfRunning(frame);
  }

  /**
   * Broadcasts through a pool: a registered consumer sees the newest frame,
   * and after it is removed a later broadcast no longer reaches it.
   */
  method PoolScenario<F>(f1: F, f2: F, f3: F) returns (seen: Option<F>, later: Option<F>)
    ensures seen == Some(f2)
    ensures later == None
  {
    var pool := new ConsumerPool<F>();
    var c := new FieldUpdateConsumer<F>.Start();
    pool.AddConsumer(c);
    assert pool.consumers == [c] && multiset(pool.consumers)[c] == 1;
    assert Copies(f1, 1) == [f1] && Copies(f2, 1) == [f2];
    pool.Put(f1);
    pool.Put(f2);
    assert c.queue == [f1, f2];
    seen := c.TakeLatest();
    var ok := pool.RemoveConsumer(c);
    assert pool.consumers == [];
    pool.Put(f3);
    later := c.TakeLatest();
  }

  /**
   * Removing a consumer that was never registered, as written: the error is
   * reported and the lock is left held, so no later pool call can return.
   */
  method RemoveUnregisteredScenario<F>() returns (ok: bool, held: bool)
    ensures !ok && held
  {
    var pool := new ConsumerPool<F>();
    var stranger := new FieldUpdateConsumer<F>.Start();
    ok := pool.RemoveConsumer(stranger);
    held := pool.lockHeld;
  }

  /**
   * The same removal with the lock released on the error path: the error is
   * reported, and a later registration and broadcast still work.
   */
  method RemoveUnregisteredReleasingScenario<F>(f: F) returns (ok: bool, seen: Option<F>)
    ensures !ok && seen == Some(f)
  {
    var pool := new ConsumerPool<F>();
    var stranger := new FieldUpdateConsumer<F>.Start();
    ok := pool.RemoveConsumerReleasingLock(stranger);
    var c := new FieldUpdateConsumer<F>.Start();
    pool.AddConsumer(c);
    assert pool.consumers == [c] && multiset(pool.consumers)[c] == 1;
    assert Copies(f, 1) == [f];
    pool.Put(f);
    seen := c.TakeLatest();
  }
}
