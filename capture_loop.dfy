/** The capture side and the control loop of `main`: read a buffer, demultiplex
    it, and render the left channel's spectrum, once per iteration. */
module CaptureLoop {
  import opened Outcomes
  import opened LeBytes
  import opened FrameDemux
  import opened Spectrum
  import opened Display
  import opened BarGraph

  /** 48 kHz x 4 bytes per sample x 2 channels x 0.1 s. */
  const BufferSize: nat := 48_000 * 4 * 2 / 10

  /** The status text shown when a capture fails. */
  const AudioError: string := "Audio Error"

  /** What one blocking `i2s_driver.read(&mut buffer, 1_000_000)` call does:
      it fails (timeout or driver fault), or it deposits `data` at the front of
      the buffer, as much as fits, and reports `n` bytes read. */
  datatype DriverRead = ReadFailed | ReadDone(n: nat, data: seq<byte>)

  /** The buffer after the driver wrote `data` into its front. */
  function Deposit(buffer: seq<byte>, data: seq<byte>): (r: seq<byte>)
    ensures |r| == |buffer|
    ensures forall j :: 0 <= j < |r| ==> r[j] == if j < |data| then data[j] else buffer[j]
  {
    if |data| >= |buffer| then data[..|buffer|] else data + buffer[|data|..]
  }

  /** `Vec::truncate(n)`: keep the first `n` elements; a no-op when `n` is not
      smaller than the length. */
  function Truncate(v: seq<byte>, n: nat): (r: seq<byte>)
    ensures |r| == Min(n, |v|) && r == v[..|r|]
  {
    if n < |v| then v[..n] else v
  }

  /** The value `read_audio_samples` returns. */
  function Capture(read: DriverRead): (r: Result<seq<byte>>)
    ensures r.Err? <==> read.ReadFailed?
    ensures r.Ok? ==> |r.value| == Min(read.n, BufferSize) && |r.value| <= BufferSize
  {
    match read
    case ReadFailed => Err(CaptureFailure)
    case ReadDone(n, data) => Ok(Truncate(Deposit(seq(BufferSize, _ => 0), data), n))
  }

  /** `read_audio_samples`: a zero-filled 38,400-byte buffer, filled by the
      driver and truncated in place to the reported length. A captured buffer
      never exceeds 38,400 bytes, whatever count the driver reports. */
  method ReadAudioSamples(read: DriverRead) returns (r: Result<seq<byte>>)
    ensures r == Capture(read)
    ensures r.Err? <==> read.ReadFailed?
    ensures r.Err? ==> r.error == CaptureFailure
    ensures r.Ok? ==> |r.value| == Min(read.n, BufferSize) && |r.value| <= BufferSize
    ensures r.Ok? ==> forall j :: 0 <= j < |r.value| ==> r.value[j] == if j < |read.data| then read.data[j] else 0
  {
    var buffer: seq<byte> := seq(BufferSize, _ => 0);
    match read
    case ReadFailed =>
      r := Err(CaptureFailure);
    case ReadDone(n, data) =>
      buffer := Deposit(buffer, data);
      buffer := Truncate(buffer, n);
      r := Ok(buffer);
  }

  /** What the loop's surroundings decide: which display calls fail, the
      transform of the left channel (its input scaling included) and the
      bar-height scaling. */
  datatype Environment = Environment(faults: set<nat>, fft: seq<int> -> seq<Bin>, scale: (nat, nat) -> int)

  /** What one loop iteration did: the commands the display accepted, the
      number of display calls made, whether `i += 1` was reached, and whether
      `main` returned (a failed status draw, propagated by `?`). */
  datatype StepOutcome = StepOutcome(issued: seq<Command>, attempted: nat, counted: bool, halted: bool)

  /** One iteration of `main`'s loop, starting at display call number `ops`. */
  function Step(env: Environment, read: DriverRead, ops: nat): (st: StepOutcome)
    ensures |st.issued| <= st.attempted
    ensures st.halted ==> read.ReadFailed? && !st.counted
  {
    match Capture(read)
    case Err(_) =>
      var o := Attempt([Status(AudioError)], ops, env.faults);
      StepOutcome(o.issued, o.attempted, o.ok, !o.ok)
    case Ok(samples) =>
      if |samples| == 0 then StepOutcome([], 0, true, false)
      else
        match Demux(samples)
        case Err(_) => StepOutcome([], 0, false, false)
        case Ok(channels) =>
          var o := Attempt(RenderScript(env.fft(channels.left), env.scale), ops, env.faults);
          StepOutcome(o.issued, o.attempted, true, false)
  }

  /** The loop body as a value, for `Run`. */
  function Body(env: Environment): (DriverRead, nat) -> StepOutcome {
    (read: DriverRead, ops: nat) => Step(env, read, ops)
  }

  /** Applying the body value is taking one step. */
  lemma BodyApplies(env: Environment, read: DriverRead, ops: nat)
    ensures Body(env)(read, ops) == Step(env, read, ops)
  {
  }

  /** The loop after a sequence of iterations: display commands accepted,
      display calls made, the counter `i`, iterations run, and whether `main`
      returned. */
  datatype LoopState = LoopState(issued: seq<Command>, attempted: nat, counter: nat, iterations: nat, halted: bool)

  /** A loop whose body is `step`, run over one driver reading per iteration
      from display call number `ops` on, until the readings run out or the body
      makes `main` return. */
  function Run(step: (DriverRead, nat) -> StepOutcome, readings: seq<DriverRead>, ops: nat): (r: LoopState)
    ensures r.iterations <= |readings|
    ensures r.halted ==> r.iterations > 0
    decreases |readings|
  {
    if |readings| == 0 then LoopState([], 0, 0, 0, false)
    else
      var prev := Run(step, readings[..|readings| - 1], ops);
      if prev.halted then prev
      else
        Advance(prev, step(readings[|readings| - 1], ops + prev.attempted))
  }

  /** The loop run after one state and one more step. */
  function Advance(done: LoopState, st: StepOutcome): (r: LoopState)
    ensures r.iterations == done.iterations + 1 && r.halted == st.halted
    ensures done.counter <= r.counter <= done.counter + 1
  {
    LoopState(done.issued + st.issued, done.attempted + st.attempted,
              done.counter + (if st.counted then 1 else 0), done.iterations + 1, st.halted)
  }

  /** One more reading runs the body once more, unless `main` has returned. */
  lemma RunNext(step: (DriverRead, nat) -> StepOutcome, readings: seq<DriverRead>, k: nat, ops: nat,
                done: LoopState, st: StepOutcome)
    requires k < |readings|
    requires done == Run(step, readings[..k], ops) && !done.halted
    requires st == step(readings[k], ops + done.attempted)
    ensures Run(step, readings[..k + 1], ops) == Advance(done, st)
  {
    var next := readings[..k + 1];
    assert next[..|next| - 1] == readings[..k];
    assert next[|next| - 1] == readings[k];
  }

  /** Once `main` has returned, later readings change nothing. */
  lemma {:induction false} RunHaltedStays(step: (DriverRead, nat) -> StepOutcome, readings: seq<DriverRead>,
                                          k: nat, ops: nat)
    requires k <= |readings|
    requires Run(step, readings[..k], ops).halted
    ensures Run(step, readings, ops) == Run(step, readings[..k], ops)
    decreases |readings|
  {
    if k < |readings| {
      assert readings[..|readings| - 1][..k] == readings[..k];
      RunHaltedStays(step, readings[..|readings| - 1], k, ops);
    } else {
      assert readings[..k] == readings;
    }
  }

  /** The counter never exceeds the iterations run, and the loop runs every
      reading unless `main` returned; if the body never returns, neither does
      the loop. */
  lemma {:induction false} RunCounts(step: (DriverRead, nat) -> StepOutcome, readings: seq<DriverRead>, ops: nat)
    ensures var st := Run(step, readings, ops);
      st.counter <= st.iterations <= |readings| && (!st.halted ==> st.iterations == |readings|)
    ensures (forall k, o :: 0 <= k < |readings| ==> !step(readings[k], o).halted) ==>
      !Run(step, readings, ops).halted
    decreases |readings|
  {
    if |readings| > 0 {
      var init := readings[..|readings| - 1];
      RunCounts(step, init, ops);
      assert forall k :: 0 <= k < |init| ==> init[k] == readings[k];
    }
  }

  /** Every command in `cs` that is a line is well placed. */
  predicate AllWellPlaced(cs: seq<Command>) {
    forall j :: 0 <= j < |cs| ==> WellPlaced(cs[j])
  }

  /** If each iteration only issues well-placed lines, so does the whole loop. */
  lemma {:induction false} RunWellPlaced(step: (DriverRead, nat) -> StepOutcome, readings: seq<DriverRead>, ops: nat)
    requires forall k, o :: 0 <= k < |readings| ==> AllWellPlaced(step(readings[k], o).issued)
    ensures AllWellPlaced(Run(step, readings, ops).issued)
    decreases |readings|
  {
    if |readings| > 0 {
      var init := readings[..|readings| - 1];
      assert forall k :: 0 <= k < |init| ==> init[k] == readings[k];
      RunWellPlaced(step, init, ops);
    }
  }

  /** A failed capture draws the "Audio Error" status and nothing else; if
      that draw fails, `main` returns. */
  lemma StepCaptureError(env: Environment, read: DriverRead, ops: nat)
    requires read.ReadFailed?
    ensures var st := Step(env, read, ops);
      st.issued == (if ops in env.faults then [] else [Status(AudioError)]) && st.attempted == 1 &&
      st.halted == (ops in env.faults) && st.counted == !st.halted
  {
  }

  /** An empty capture renders nothing and the loop goes on. */
  lemma StepEmptyCapture(env: Environment, read: DriverRead, ops: nat)
    requires Capture(read) == Ok([])
    ensures Step(env, read, ops) == StepOutcome([], 0, true, false)
  {
  }

  /** A capture that is not frame-aligned renders nothing, shows no error and
      skips the counter (`continue` jumps over `i += 1`). */
  lemma StepMalformedCapture(env: Environment, read: DriverRead, ops: nat)
    requires Capture(read).Ok? && |Capture(read).value| % 8 != 0
    ensures Step(env, read, ops) == StepOutcome([], 0, false, false)
  {
  }

  /** A non-empty frame-aligned capture renders the left channel's spectrum;
      whether the render fails or not, the loop goes on. */
  lemma StepRender(env: Environment, read: DriverRead, ops: nat)
    requires Capture(read).Ok? && |Capture(read).value| > 0 && |Capture(read).value| % 8 == 0
    ensures var o := Attempt(RenderScript(env.fft(Demux(Capture(read).value).value.left), env.scale), ops, env.faults);
      Step(env, read, ops) == StepOutcome(o.issued, o.attempted, true, false)
  {
  }

  /** `main` returns only when drawing the "Audio Error" status fails. */
  lemma StepHalts(env: Environment, read: DriverRead, ops: nat)
    ensures Step(env, read, ops).halted <==> read.ReadFailed? && ops in env.faults
  {
  }

  /** No iteration issues a line outside the graph area. */
  lemma StepWellPlaced(env: Environment, read: DriverRead, ops: nat)
    ensures AllWellPlaced(Step(env, read, ops).issued)
  {
    var captured := Capture(read);
    if captured.Ok? && |captured.value| > 0 && |captured.value| % 8 == 0 {
      var spectrum := env.fft(Demux(captured.value).value.left);
      var script := RenderScript(spectrum, env.scale);
      RenderScriptShape(spectrum, env.scale);
      var issued := Attempt(script, ops, env.faults).issued;
      assert forall j :: 0 <= j < |issued| ==> issued[j] == script[j];
    }
  }

  /** Over any run of `main`'s loop every line drawn lies in the graph area,
      the loop ends early only after a failed "Audio Error" draw, and the
      counter never exceeds the iterations run. */
  lemma LoopInvariants(env: Environment, readings: seq<DriverRead>, ops: nat)
    ensures AllWellPlaced(Run(Body(env), readings, ops).issued)
    ensures var st := Run(Body(env), readings, ops);
      st.counter <= st.iterations <= |readings| && (!st.halted ==> st.iterations == |readings|)
    ensures (forall k :: 0 <= k < |readings| ==> readings[k].ReadDone?) ==> !Run(Body(env), readings, ops).halted
  {
    forall k, o | 0 <= k < |readings|
      ensures AllWellPlaced(Body(env)(readings[k], o).issued)
      ensures readings[k].ReadDone? ==> !Body(env)(readings[k], o).halted
    {
      StepWellPlaced(env, readings[k], o);
      StepHalts(env, readings[k], o);
    }
    RunWellPlaced(Body(env), readings, ops);
    RunCounts(Body(env), readings, ops);
  }

  /** One pass through the body of `main`'s loop. `counted` says whether the
      pass reaches `i += 1` (the `let ... else { continue; }` on a malformed
      buffer jumps over it); `halted` says whether `main` returned, which it
      does when drawing the "Audio Error" status fails. The render's own
      result is dropped. */
  method LoopBody(display: Surface, read: DriverRead, fft: seq<int> -> seq<Bin>, scale: (nat, nat) -> int,
                  ghost env: Environment)
    returns (counted: bool, halted: bool)
    requires env == Environment(display.faults, fft, scale)
    modifies display
    ensures var st := Step(env, read, old(display.ops));
      display.log == old(display.log) + st.issued && display.ops == old(display.ops) + st.attempted &&
      counted == st.counted && halted == st.halted
  {
    counted, halted := true, false;
    var captured := ReadAudioSamples(read);
    match captured {
    case Ok(samples) =>
      if |samples| != 0 {
        var demuxed := ProcessAudioSamples(samples);
        if demuxed.Err? {
          StepMalformedCapture(env, read, display.ops);
          counted := false;
          return;
        }
        StepRender(env, read, display.ops);
        var _ := ProcessAndDisplayFft(display, fft(demuxed.value.left), scale);
      } else {
        StepEmptyCapture(env, read, display.ops);
      }
    case Err(_) =>
      StepCaptureError(env, read, display.ops);
      var ok := display.Issue(Status(AudioError));
      if !ok {
        counted, halted := false, true;
      }
    }
  }

  /** One pass of `main`'s loop after the first `k` readings, stated in terms of
      the loop state those readings led to. */
  method Iterate(display: Surface, readings: seq<DriverRead>, k: nat,
                 fft: seq<int> -> seq<Bin>, scale: (nat, nat) -> int,
                 ghost env: Environment, ghost log0: seq<Command>, ghost ops0: nat, ghost done: LoopState)
    returns (counted: bool, stop: bool, ghost next: LoopState)
    requires k < |readings| && env == Environment(display.faults, fft, scale)
    requires done == Run(Body(env), readings[..k], ops0) && !done.halted
    requires display.log == log0 + done.issued && display.ops == ops0 + done.attempted
    modifies display
    ensures next == Run(Body(env), readings[..k + 1], ops0)
    ensures display.log == log0 + next.issued && display.ops == ops0 + next.attempted
    ensures next.counter == done.counter + (if counted then 1 else 0) && stop == next.halted
    ensures stop ==> !counted
  {
    ghost var st := Step(env, readings[k], display.ops);
    BodyApplies(env, readings[k], display.ops);
    RunNext(Body(env), readings, k, ops0, done, st);
    counted, stop := LoopBody(display, readings[k], fft, scale, env);
    AppendAssoc(log0, done.issued, st.issued);
    next := Advance(done, st);
  }

  /** `main`'s loop, bounded by the readings supplied; returns the counter `i`
      and whether `main` returned. */
  method RunLoop(display: Surface, readings: seq<DriverRead>,
                 fft: seq<int> -> seq<Bin>, scale: (nat, nat) -> int) returns (i: nat, halted: bool)
    modifies display
    ensures var st := Run(Body(Environment(display.faults, fft, scale)), readings, old(display.ops));
      display.log == old(display.log) + st.issued && display.ops == old(display.ops) + st.attempted &&
      i == st.counter && halted == st.halted
  {
    ghost var env := Environment(display.faults, fft, scale);
    ghost var log0, ops0 := display.log, display.ops;
    i, halted := 0, false;
    var k := 0;
    ghost var done := LoopState([], 0, 0, 0, false);
    assert readings[..0] == [];
    while k < |readings|
      invariant 0 <= k <= |readings|
      invariant done == Run(Body(env), readings[..k], ops0) && !done.halted
      invariant display.log == log0 + done.issued && display.ops == ops0 + done.attempted
      invariant i == done.counter
      decreases |readings| - k
    {
      var counted, stop;
      counted, stop, done := Iterate(display, readings, k, fft, scale, env, log0, ops0, done);
      if stop {
        halted := true;
        RunHaltedStays(Body(env), readings, k + 1, ops0);
        return;
      }
      if counted {
        i := i + 1;
      }
      k := k + 1;
    }
    assert readings[..k] == readings;
  }
}
