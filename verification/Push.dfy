/** Push subscriptions (`Observe` and `Watch`): the connection's reader, the consumer and any number of
    shutdowns, interleaved in atomic steps around one bounded channel. */
module Push {
  import opened GoValues

  const CAPACITY := 64

  /** The stages of the one execution `sync.Once` allows: the connection is being closed, then the
      channel, then everyone waiting returns. */
  datatype Once = Fresh | Cancelling | Closing | Done

  /** `calling` is the message a callback has decoded and not yet offered. `decoded`, `received` and
      `dropped` are the history. `panicked` records a send on, or a second close of, a closed channel. */
  datatype State<M> = State(
    buffer: seq<M>,
    closed: bool,
    connected: bool,
    once: Once,
    calling: Option<M>,
    decoded: seq<M>,
    received: seq<M>,
    dropped: nat,
    panicked: bool)

  function Start<M>(): State<M> {
    State([], false, true, Fresh, None, [], [], 0, false)
  }

  /** - `Frame`: the reader decodes a push frame and enters the callback
      - `Offer`: the callback's `select`
      - `Receive`: the consumer takes a message
      - `Shutdown`: `stop`, or the goroutine waiting for the context, enters `once.Do`
      - `Cancelled`: the connection's `Close` returns
      - `CloseChannel`: `close(out)`, and `once.Do` returns
      - `Lost`: the connection dies by itself */
  datatype Step<M> = Frame(msg: M) | Offer | Receive | Shutdown | Cancelled | CloseChannel | Lost

  /** With `waits`, the connection's `Close` does not return while a callback is running. */
  predicate Enabled<M>(waits: bool, s: State<M>, step: Step<M>) {
    match step
    case Frame(_) => s.connected && s.calling.None?
    case Offer => s.calling.Some?
    case Receive => s.buffer != []
    case Shutdown => true
    case Cancelled => s.once == Cancelling && (waits ==> s.calling.None?)
    case CloseChannel => s.once == Closing
    case Lost => s.connected
  }

  function Take<M>(s: State<M>, step: Step<M>): State<M>
    requires Enabled(false, s, step)
  {
    match step
    case Frame(m) => s.(calling := Some(m), decoded := s.decoded + [m])
    case Offer =>
      if s.closed then s.(calling := None, panicked := true)
      else if |s.buffer| < CAPACITY then s.(calling := None, buffer := s.buffer + [s.calling.value])
      else s.(calling := None, dropped := s.dropped + 1)
    case Receive => s.(buffer := s.buffer[1..], received := s.received + [s.buffer[0]])
    case Shutdown => if s.once == Fresh then s.(once := Cancelling) else s
    case Cancelled => s.(once := Closing, connected := false)
    case CloseChannel => s.(once := Done, closed := true, panicked := s.panicked || s.closed)
    case Lost => s.(connected := false)
  }

  /** A run; steps that are not enabled do not happen. */
  function Run<M>(waits: bool, steps: seq<Step<M>>): State<M> {
    if steps == [] then Start()
    else
      var s := Run(waits, steps[..|steps| - 1]);
      var step := steps[|steps| - 1];
      if Enabled(waits, s, step) then Take(s, step) else s
  }

  /** a is b with some elements left out. */
  ghost predicate Subsequence<M>(a: seq<M>, b: seq<M>) {
    a == [] ||
    (b != [] &&
     (Subsequence(a, b[..|b| - 1]) ||
      (a[|a| - 1] == b[|b| - 1] && Subsequence(a[..|a| - 1], b[..|b| - 1]))))
  }

  lemma SubsequenceGrows<M>(a: seq<M>, b: seq<M>, x: M)
    requires Subsequence(a, b)
    ensures Subsequence(a, b + [x]) && Subsequence(a + [x], b + [x])
  {
    assert (a + [x])[..|a|] == a && (b + [x])[..|b|] == b;
  }

  /** Messages whose fate is settled: all decoded ones but the one in the callback. */
  function Settled<M>(s: State<M>): seq<M> {
    if s.calling.Some? && s.decoded != [] then s.decoded[..|s.decoded| - 1] else s.decoded
  }

  ghost predicate Safe<M>(s: State<M>) {
    && !s.panicked
    && (s.closed <==> s.once == Done)
    && (s.once == Closing || s.once == Done ==> !s.connected && s.calling.None?)
    && |s.buffer| <= CAPACITY
    && (s.calling.Some? ==> s.decoded != [] && s.calling.value == s.decoded[|s.decoded| - 1])
    && |Settled(s)| == |s.received| + |s.buffer| + s.dropped
    && Subsequence(s.received + s.buffer, Settled(s))
  }

  lemma OfferStaysSafe<M>(s: State<M>)
    requires Safe(s) && s.calling.Some?
    ensures Safe(Take(s, Offer))
  {
    var m := s.calling.value;
    assert s.decoded == Settled(s) + [m];
    SubsequenceGrows(s.received + s.buffer, Settled(s), m);
    assert s.received + (s.buffer + [m]) == s.received + s.buffer + [m];
  }

  lemma ReceiveStaysSafe<M>(s: State<M>)
    requires Safe(s) && s.buffer != []
    ensures Safe(Take(s, Receive))
  {
    assert s.received + [s.buffer[0]] + s.buffer[1..] == s.received + s.buffer;
    assert Settled(Take(s, Receive)) == Settled(s);
  }

  lemma FrameStaysSafe<M>(s: State<M>, m: M)
    requires Safe(s) && s.connected && s.calling.None?
    ensures Safe(Take(s, Frame(m)))
  {
    assert Settled(Take(s, Frame(m))) == s.decoded;
  }

  lemma StepStaysSafe<M>(s: State<M>, step: Step<M>)
    requires Safe(s) && Enabled(true, s, step)
    ensures Safe(Take(s, step))
  {
    match step
    case Frame(m) => FrameStaysSafe(s, m);
    case Offer => OfferStaysSafe(s);
    case Receive => ReceiveStaysSafe(s);
    case _ => assert Settled(Take(s, step)) == Settled(s);
  }

  /** Safety over every interleaving: the channel is closed at most once and nothing is sent on it
      afterwards; it never holds more than 64 messages; what is received and buffered is what was
      decoded, in order, less the dropped ones, and the counts add up. */
  lemma {:induction false} RunIsSafe<M>(steps: seq<Step<M>>)
    ensures Safe(Run(true, steps)) && |Run(true, steps).buffer| <= 64
  {
    if steps != [] {
      var earlier := steps[..|steps| - 1];
      RunIsSafe(earlier);
      var s, step := Run(true, earlier), steps[|steps| - 1];
      if Enabled(true, s, step) {
        StepStaysSafe(s, step);
      }
    } else {
      assert Subsequence<M>([] + [], []);
    }
  }

  /** The safety rests on one thing: that the connection's `Close` waits for a running callback. If it
      does not, some run sends on the closed channel. */
  lemma SafeIffCloseWaits<M>(waits: bool, m: M)
    ensures (forall steps: seq<Step<M>> :: !Run(waits, steps).panicked) <==> waits
  {
    if waits {
      forall steps: seq<Step<M>> ensures !Run(waits, steps).panicked {
        RunIsSafe(steps);
      }
    } else {
      var s1: seq<Step<M>> := [] + [Frame(m)];
      var s2 := s1 + [Shutdown];
      var s3 := s2 + [Cancelled];
      var s4 := s3 + [CloseChannel];
      RunStep(false, [], Frame(m));
      RunStep(false, s1, Shutdown);
      RunStep(false, s2, Cancelled);
      RunStep(false, s3, CloseChannel);
      RunStep(false, s4, Offer);
      assert Run(false, s4 + [Offer]).panicked;
    }
  }

  lemma RunStep<M>(waits: bool, steps: seq<Step<M>>, step: Step<M>)
    ensures var s := Run(waits, steps);
      Run(waits, steps + [step]) == if Enabled(waits, s, step) then Take(s, step) else s
  {
    assert (steps + [step])[..|steps|] == steps;
  }

  /** The callback never blocks, and a full buffer loses the newest message, not the oldest. */
  lemma FullBufferDropsNewest<M>(s: State<M>)
    requires Safe(s) && s.calling.Some?
    ensures Enabled(true, s, Offer)
    ensures var t := Take(s, Offer);
      && t.buffer == (if |s.buffer| < 64 then s.buffer + [s.calling.value] else s.buffer)
      && t.received == s.received
      && (t.dropped == s.dropped + 1 <==> |s.buffer| == 64)
  {
  }

  lemma {:induction false} Fill<M>(m: M, n: nat) returns (steps: seq<Step<M>>)
    requires n <= CAPACITY
    ensures var s := Run(true, steps);
      |s.buffer| == n && s.calling.None? && s.connected && !s.closed && s.dropped == 0
  {
    if n == 0 {
      steps := [];
    } else {
      var fewer := Fill(m, n - 1);
      RunStep(true, fewer, Frame(m));
      RunStep(true, fewer + [Frame(m)], Offer);
      steps := fewer + [Frame(m)] + [Offer];
    }
  }

  /** It does happen: some run fills the buffer, and the next message is decoded and lost. */
  lemma FullBufferIsReachable<M>(m: M) returns (steps: seq<Step<M>>)
    ensures var s, t := Run(true, steps), Run(true, steps + [Offer]);
      && |s.buffer| == 64 && s.calling == Some(m) && s.dropped == 0
      && t.buffer == s.buffer && t.dropped == 1 && t.calling.None?
  {
    var full := Fill(m, CAPACITY);
    steps := full + [Frame(m)];
    RunStep(true, full, Frame(m));
    RunStep(true, steps, Offer);
  }

  /** Once begun, a shutdown can always finish: at most the running callback stands in its way. */
  lemma ShutdownCompletes<M>(steps: seq<Step<M>>)
    requires Run(true, steps).once != Fresh
    ensures Run(true, steps + [Offer] + [Cancelled] + [CloseChannel]).closed
  {
    RunIsSafe(steps);
    var a := steps + [Offer];
    var b := a + [Cancelled];
    var c := b + [CloseChannel];
    assert a[..|a| - 1] == steps && b[..|b| - 1] == a && c[..|c| - 1] == b;
    RunIsSafe(a);
    RunIsSafe(b);
  }

  /** After the channel is closed nothing new is decoded or sent: later steps only drain it. */
  lemma {:induction false} ClosedOnlyDrains<M>(steps: seq<Step<M>>, more: seq<Step<M>>)
    requires Run(true, steps).closed
    ensures var s, t := Run(true, steps), Run(true, steps + more);
      && t.closed && t.decoded == s.decoded && t.dropped == s.dropped
      && t.received + t.buffer == s.received + s.buffer
  {
    if more == [] {
      assert steps + more == steps;
    } else {
      var n := |more| - 1;
      ClosedOnlyDrains(steps, more[..n]);
      var all := steps + more;
      assert all[..|all| - 1] == steps + more[..n] && all[|all| - 1] == more[n];
      RunIsSafe(steps + more[..n]);
      var s := Run(true, steps + more[..n]);
      if s.buffer != [] {
        assert s.received + [s.buffer[0]] + s.buffer[1..] == s.received + s.buffer;
      }
    }
  }

  // ---------------------------------------------------------------- the implementation

  /** One subscription: its channel, its connection and its once-guard. */
  class Subscription<M> {
    var out: seq<M>
    var closed: bool
    var connected: bool
    var once: bool
    ghost var history: State<M>

    /** The fields are the ones of a state in which no step is half done. */
    ghost predicate Valid()
      reads this
    {
      && Safe(history) && history.calling.None? && (history.once == Fresh || history.once == Done)
      && history.buffer == out && history.closed == closed
      && history.connected == connected && (history.once == Done <==> once)
    }

    constructor ()
      ensures Valid() && history == Start()
    {
      out, closed, connected, once := [], false, true, false;
      history := Start();
      new;
      assert Subsequence<M>([] + [], []);
    }

    /** The push hook: decode, then send without blocking. */
    method OnMessage(msg: M)
      requires Valid() && connected
      modifies this
      ensures Valid() && history == Take(Take(old(history), Frame(msg)), Offer)
      ensures out == if |old(out)| < 64 then old(out) + [msg] else old(out)
      ensures closed == old(closed) && connected && once == old(once)
    {
      StepStaysSafe(history, Frame(msg));
      history := Take(history, Frame(msg));
      StepStaysSafe(history, Offer);
      history := Take(history, Offer);
      if |out| < CAPACITY {
        out := out + [msg];
      }
    }

    method Receive() returns (msg: M)
      requires Valid() && out != []
      modifies this
      ensures Valid() && history == Take(old(history), Step.Receive) && [msg] + out == old(out)
      ensures closed == old(closed) && connected == old(connected) && once == old(once)
    {
      StepStaysSafe(history, Step.Receive);
      history := Take(history, Step.Receive);
      msg := out[0];
      out := out[1..];
    }

    /** `shutdown`: the first call closes the connection, then the channel; later calls do nothing. */
    method Stop()
      requires Valid()
      modifies this
      ensures Valid() && closed && !connected && once && out == old(out)
      ensures history == if old(once) then old(history)
                         else Take(Take(Take(old(history), Shutdown), Cancelled), CloseChannel)
    {
      if !once {
        StepStaysSafe(history, Shutdown);
        history := Take(history, Shutdown);
        StepStaysSafe(history, Cancelled);
        history := Take(history, Cancelled);
        StepStaysSafe(history, CloseChannel);
        history := Take(history, CloseChannel);
        once := true;
        connected := false;
        closed := true;
      }
    }
  }
}
