/** The playback queue shared by the three inbound processors.

    Each processor keeps a FIFO of float samples: its message handler appends
    decoded samples at the back, and every render quantum `process` shifts N
    samples off the front, writing 0 for each sample the queue cannot supply
    (`queue.shift() || 0`).  Drained and Remaining say what one quantum takes and
    leaves; DrainQuantum and Broadcast are the two loops of `process`. */
module SampleQueue {

  /** The number of samples a quantum of n actually takes from q. */
  function Taken(q: seq<real>, n: nat): (k: nat)
    ensures k <= n && k <= |q|
    ensures k == n || k == |q|
  {
    if n <= |q| then n else |q|
  }

  /** The n samples a quantum reads: the front of q, then zeros on underrun. */
  function Drained(q: seq<real>, n: nat): (buffer: seq<real>)
    ensures |buffer| == n
  {
    seq(n, i requires 0 <= i < n => if i < |q| then q[i] else 0.0)
  }

  /** What the queue holds after the quantum. */
  function Remaining(q: seq<real>, n: nat): (rest: seq<real>)
    ensures |rest| == |q| - Taken(q, n)
  {
    q[Taken(q, n)..]
  }

  /** A quantum loses nothing: the samples it reads, followed by the samples it
      leaves, are exactly the old queue; the rest of the buffer is silence. */
  lemma DrainConserves(q: seq<real>, n: nat)
    ensures Drained(q, n)[..Taken(q, n)] + Remaining(q, n) == q
    ensures forall i | Taken(q, n) <= i < n :: Drained(q, n)[i] == 0.0
  {
    var k := Taken(q, n);
    assert Drained(q, n)[..k] == q[..k];
    assert q[..k] + q[k..] == q;
  }

  /** First in, first out: samples appended behind a queue are read only after
      everything already in it. */
  lemma DrainFifo(q: seq<real>, pushed: seq<real>, n: nat)
    requires n <= |q|
    ensures Drained(q + pushed, n) == Drained(q, n)
    ensures Remaining(q + pushed, n) == Remaining(q, n) + pushed
  {
    assert (q + pushed)[n..] == q[n..] + pushed;
  }

  /** Two quanta read the same samples as one quantum of their combined size. */
  lemma {:induction false} DrainTwice(q: seq<real>, n: nat, m: nat)
    ensures Drained(q, n) + Drained(Remaining(q, n), m) == Drained(q, n + m)
    ensures Remaining(Remaining(q, n), m) == Remaining(q, n + m)
  {
    var k := Taken(q, n);
    var r := Remaining(q, n);
    assert r == q[k..];
    forall i | 0 <= i < n + m
      ensures (Drained(q, n) + Drained(r, m))[i] == Drained(q, n + m)[i]
    {
      if i >= n {
        if k < n {
          assert |r| == 0;
        } else {
          assert i - n < |r| <==> i < |q|;
        }
      }
    }
  }

  /** An empty queue plays silence and stays empty. */
  lemma DrainEmpty(n: nat)
    ensures Drained([], n) == seq(n, i => 0.0)
    ensures Remaining([], n) == []
  {
  }

  /** The playback loop: shifts n samples off the front of `queue` into a new
      buffer, filling with zeros once the queue runs dry. */
  method DrainQuantum(queue: seq<real>, n: nat) returns (buffer: array<real>, rest: seq<real>)
    ensures fresh(buffer)
    ensures buffer[..] == Drained(queue, n)
    ensures rest == Remaining(queue, n)
  {
    buffer := new real[n];
    rest := queue;
    var i := 0;
    while i < n
      invariant 0 <= i <= n
      invariant rest == queue[Taken(queue, i)..]
      invariant forall j | 0 <= j < i :: buffer[j] == Drained(queue, n)[j]
    {
      if |rest| > 0 {
        buffer[i] := rest[0];
        rest := rest[1..];
      } else {
        buffer[i] := 0.0;
      }
      i := i + 1;
    }
  }

  /** Every channel array of every output device. */
  ghost function Channels(outputs: seq<seq<array<real>>>): set<array<real>>
  {
    set d, c | 0 <= d < |outputs| && 0 <= c < |outputs[d]| :: outputs[d][c]
  }

  /** The broadcast loops: copies `buffer` into every channel of every output
      device.  Every channel has the buffer's length, as the render quantum
      guarantees; channels may share an array. */
  method Broadcast(buffer: array<real>, outputs: seq<seq<array<real>>>)
    requires buffer !in Channels(outputs)
    requires forall d, c | 0 <= d < |outputs| && 0 <= c < |outputs[d]| :: outputs[d][c].Length == buffer.Length
    modifies Channels(outputs)
    ensures forall d, c | 0 <= d < |outputs| && 0 <= c < |outputs[d]| :: outputs[d][c][..] == buffer[..]
  {
    var d := 0;
    while d < |outputs|
      invariant 0 <= d <= |outputs|
      invariant forall d', c | 0 <= d' < d && 0 <= c < |outputs[d']| :: outputs[d'][c][..] == buffer[..]
    {
      var c := 0;
      while c < |outputs[d]|
        invariant 0 <= c <= |outputs[d]|
        invariant forall d', c' | 0 <= d' < d && 0 <= c' < |outputs[d']| :: outputs[d'][c'][..] == buffer[..]
        invariant forall c' | 0 <= c' < c :: outputs[d][c'][..] == buffer[..]
      {
        var channel := outputs[d][c];
        var j := 0;
        while j < channel.Length
          invariant 0 <= j <= channel.Length
          invariant forall d', c' | 0 <= d' < d && 0 <= c' < |outputs[d']| :: outputs[d'][c'][..] == buffer[..]
          invariant forall c' | 0 <= c' < c :: outputs[d][c'][..] == buffer[..]
          invariant forall k | 0 <= k < j :: channel[k] == buffer[k]
        {
          channel[j] := buffer[j];
          j := j + 1;
        }
        assert channel[..] == buffer[..];
        c := c + 1;
      }
      d := d + 1;
    }
  }
}
