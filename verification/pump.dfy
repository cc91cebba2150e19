/**
 * The per-worker output pump, with the race between "next line of the
 * child's stdout" and "shutdown requested" abstracted into a given trace of
 * events: each event is the branch the race took on one turn of the loop.
 *
 * The pump prints a header naming the command, echoes every line prefixed
 * by `[i] `, and stops on end of stream, on a read error, or on shutdown
 * (printing a notice and asking for the child to be killed); on every exit
 * it prints `Cleaned up.` once.
 */
module OutputPump {
  import opened Optional
  import opened Decimal
  import opened Text
  import opened Invocation

  /** What one turn of the loop observed. */
  datatype Event = Line(text: string) | Eof | ReadErr | Cancel

  /** Why the loop ended. */
  datatype Exit = StreamClosed | ReadFailed | Cancelled

  /** One console line, before the `[i] ` prefix is rendered. */
  datatype Output =
    | Header(program: string, args: seq<string>)
    | Echo(text: string)
    | ShutdownNotice
    | CleanedUp

  datatype Phase = Reading | Terminated(exit: Exit)

  /** The pump's phase, everything it printed so far, and whether it asked for a kill. */
  datatype PumpState = PumpState(phase: Phase, printed: seq<Output>, killRequested: bool)

  predicate IsExit(e: Event) {
    !e.Line?
  }

  function ExitOf(e: Event): Exit
    requires IsExit(e)
  {
    match e
    case Eof => StreamClosed
    case ReadErr => ReadFailed
    case Cancel => Cancelled
  }

  /** The state before the loop: the header is printed. */
  function Start(c: Command): PumpState {
    PumpState(Reading, [Header(c.program, c.args)], false)
  }

  /** One turn of the loop. */
  function Step(s: PumpState, e: Event): (t: PumpState)
    ensures s.phase.Terminated? ==> t == s
    ensures |s.printed| <= |t.printed| && t.printed[..|s.printed|] == s.printed
    ensures s.phase == Reading && e.Line? ==> t.phase == Reading
    ensures s.phase == Reading && IsExit(e) ==> t.phase == Terminated(ExitOf(e))
  {
    if s.phase.Terminated? then s
    else
      match e
      case Line(x) => s.(printed := s.printed + [Echo(x)])
      case Eof => s.(phase := Terminated(StreamClosed), printed := s.printed + [CleanedUp])
      case ReadErr => s.(phase := Terminated(ReadFailed), printed := s.printed + [CleanedUp])
      case Cancel =>
        // the result of `kill` is discarded: a failed kill changes nothing
        PumpState(Terminated(Cancelled), s.printed + [ShutdownNotice, CleanedUp], true)
  }

  /** The loop run over a trace of events. */
  function Run(s: PumpState, trace: seq<Event>): (r: PumpState)
    ensures |s.printed| <= |r.printed| && r.printed[..|s.printed|] == s.printed
    decreases |trace|
  {
    if |trace| == 0 then s else Run(Step(s, trace[0]), trace[1..])
  }

  /** A worker's pump from the header on. */
  function Pump(c: Command, trace: seq<Event>): (r: PumpState)
    ensures |r.printed| >= 1 && r.printed[0] == Header(c.program, c.args)
  {
    Run(Start(c), trace)
  }

  // ---------------------------------------------------------------------
  // Reference description of the pump, by position in the trace

  /** The position of the first event that ends the loop, if any. */
  function FirstExit(trace: seq<Event>): (r: Option<nat>)
    ensures r.Some? ==> r.value < |trace| && IsExit(trace[r.value])
    ensures r.Some? ==> forall j :: 0 <= j < r.value ==> trace[j].Line?
    ensures r.None? ==> forall j :: 0 <= j < |trace| ==> trace[j].Line?
    decreases |trace|
  {
    if |trace| == 0 then None
    else if IsExit(trace[0]) then Some(0)
    else
      match FirstExit(trace[1..])
      case None => None
      case Some(k) => Some(k + 1)
  }

  /** The echo of each line event of `lines`, in order. */
  function Echoes(lines: seq<Event>): (r: seq<Output>)
    requires forall j :: 0 <= j < |lines| ==> lines[j].Line?
  {
    seq(|lines|, j requires 0 <= j < |lines| && lines[j].Line? => Echo(lines[j].text))
  }

  /** What the loop prints when it leaves through `e`. */
  function Closing(e: Event): seq<Output> {
    if e == Cancel then [ShutdownNotice, CleanedUp] else [CleanedUp]
  }

  /** The pump's outcome as a function of the first exit event. */
  function Expected(c: Command, trace: seq<Event>): PumpState {
    match FirstExit(trace)
    case None =>
      PumpState(Reading, [Header(c.program, c.args)] + Echoes(trace), false)
    case Some(k) =>
      PumpState(Terminated(ExitOf(trace[k])),
                [Header(c.program, c.args)] + Echoes(trace[..k]) + Closing(trace[k]),
                trace[k] == Cancel)
  }

  /** From `Reading`, a trace of lines only echoes them and keeps reading. */
  lemma {:induction false} RunLines(s: PumpState, trace: seq<Event>)
    requires s.phase == Reading
    requires FirstExit(trace).None?
    ensures Run(s, trace) == s.(printed := s.printed + Echoes(trace))
    decreases |trace|
  {
    if |trace| > 0 {
      var e := trace[0];
      RunLines(Step(s, e), trace[1..]);
      assert Echoes(trace) == [Echo(e.text)] + Echoes(trace[1..]);
    }
  }

  /** From `Reading`, the loop echoes the lines before the first exit event, then closes. */
  lemma {:induction false} RunToExit(s: PumpState, trace: seq<Event>, k: nat)
    requires s.phase == Reading
    requires FirstExit(trace) == Some(k)
    ensures Run(s, trace) == PumpState(Terminated(ExitOf(trace[k])),
                                       s.printed + Echoes(trace[..k]) + Closing(trace[k]),
                                       s.killRequested || trace[k] == Cancel)
    decreases |trace|
  {
    var e := trace[0];
    var t := Step(s, e);
    assert Run(s, trace) == Run(t, trace[1..]);
    if k == 0 {
      assert t == PumpState(Terminated(ExitOf(e)), s.printed + Closing(e), s.killRequested || e == Cancel);
      RunTerminated(t, trace[1..]);
      assert Echoes(trace[..0]) == [];
    } else {
      assert t == s.(printed := s.printed + [Echo(e.text)]);
      assert FirstExit(trace[1..]) == Some(k - 1);
      RunToExit(t, trace[1..], k - 1);
      assert trace[1..][..k - 1] == trace[..k][1..];
      assert Echoes(trace[..k]) == [Echo(e.text)] + Echoes(trace[1..][..k - 1]);
      assert s.printed + Echoes(trace[..k]) == t.printed + Echoes(trace[1..][..k - 1]);
    }
  }

  /** Once terminated, further events change nothing. */
  lemma {:induction false} RunTerminated(s: PumpState, trace: seq<Event>)
    requires s.phase.Terminated?
    ensures Run(s, trace) == s
    decreases |trace|
  {
    if |trace| > 0 {
      RunTerminated(Step(s, trace[0]), trace[1..]);
    }
  }

  /** The loop does what the reference description says, on every trace. */
  lemma PumpMatchesReference(c: Command, trace: seq<Event>)
    ensures Pump(c, trace) == Expected(c, trace)
  {
    match FirstExit(trace)
    case None => RunLines(Start(c), trace);
    case Some(k) => RunToExit(Start(c), trace, k);
  }

  // ---------------------------------------------------------------------
  // Consequences

  /** The header is printed first; `Cleaned up.` is printed exactly when the
      loop ended, then as the last line, and only once. */
  lemma HeaderFirstCleanupLast(c: Command, trace: seq<Event>)
    ensures Pump(c, trace).printed[0] == Header(c.program, c.args)
    ensures Pump(c, trace).phase.Terminated? <==> FirstExit(trace).Some?
    ensures var p := Pump(c, trace).printed;
      Pump(c, trace).phase.Terminated? ==> p[|p| - 1] == CleanedUp && multiset(p)[CleanedUp] == 1
    ensures Pump(c, trace).phase == Reading ==> CleanedUp !in Pump(c, trace).printed
  {
    PumpMatchesReference(c, trace);
    var p := Pump(c, trace).printed;
    match FirstExit(trace)
    case None =>
      assert p == [Header(c.program, c.args)] + Echoes(trace);
      assert CleanedUp !in Echoes(trace);
    case Some(k) =>
      var body := [Header(c.program, c.args)] + Echoes(trace[..k]);
      assert CleanedUp !in Echoes(trace[..k]);
      assert multiset(body)[CleanedUp] == 0;
      assert p == body + Closing(trace[k]);
  }

  /** The explicit kill is requested exactly when the loop left through the
      shutdown branch (the kill on drop when the task ends is not modelled). */
  lemma KillExactlyOnCancel(c: Command, trace: seq<Event>)
    ensures Pump(c, trace).killRequested <==> Pump(c, trace).phase == Terminated(Cancelled)
    ensures Pump(c, trace).killRequested <==>
      FirstExit(trace).Some? && trace[FirstExit(trace).value] == Cancel
    ensures ShutdownNotice in Pump(c, trace).printed <==> Pump(c, trace).killRequested
  {
    PumpMatchesReference(c, trace);
    match FirstExit(trace)
    case None =>
      assert ShutdownNotice !in Echoes(trace);
    case Some(k) =>
      assert ShutdownNotice !in Echoes(trace[..k]);
  }

  /** The echoed lines are the trace's lines before the first exit, verbatim
      (empty ones included), in trace order, right after the header. */
  lemma LinesInOrder(c: Command, trace: seq<Event>, j: nat)
    requires j < |trace|
    requires forall i :: 0 <= i <= j ==> trace[i].Line?
    ensures j + 1 < |Pump(c, trace).printed|
    ensures Pump(c, trace).printed[j + 1] == Echo(trace[j].text)
  {
    PumpMatchesReference(c, trace);
    match FirstExit(trace)
    case None =>
    case Some(k) =>
      assert j < k;
  }

  /** Nothing after the first exit event is observed: the trace may as well end there. */
  lemma IgnoredAfterExit(c: Command, trace: seq<Event>, k: nat)
    requires FirstExit(trace) == Some(k)
    ensures Pump(c, trace) == Pump(c, trace[..k + 1])
    ensures Pump(c, trace).phase.Terminated?
  {
    PumpMatchesReference(c, trace);
    PumpMatchesReference(c, trace[..k + 1]);
    FirstExitPrefix(trace, k);
    assert trace[..k + 1][..k] == trace[..k];
  }

  /** The cut-off fact `IgnoredAfterExit` needs: the first exit event stays first in the trace cut after it. */
  lemma FirstExitPrefix(trace: seq<Event>, k: nat)
    requires FirstExit(trace) == Some(k)
    ensures FirstExit(trace[..k + 1]) == Some(k)
    decreases |trace|
  {
  }

  /** Running on a concatenated trace is running on the first part, then on the second. */
  lemma {:induction false} RunAppend(s: PumpState, t1: seq<Event>, t2: seq<Event>)
    ensures Run(s, t1 + t2) == Run(Run(s, t1), t2)
    decreases |t1|
  {
    if |t1| > 0 {
      assert (t1 + t2)[1..] == t1[1..] + t2;
      RunAppend(Step(s, t1[0]), t1[1..], t2);
    } else {
      assert t1 + t2 == t2;
    }
  }

  /** The loop never takes back a printed line: running on a longer trace
      extends what the shorter one printed. */
  lemma OutputIsStreamed(c: Command, t1: seq<Event>, t2: seq<Event>)
    ensures var p1 := Pump(c, t1).printed; var p := Pump(c, t1 + t2).printed;
      |p1| <= |p| && p[..|p1|] == p1
  {
    RunAppend(Start(c), t1, t2);
  }

  /** Whatever happened before, a shutdown turn ends the loop; it kills the
      child unless the stream had already ended. */
  lemma CancelTerminates(c: Command, trace: seq<Event>)
    ensures Pump(c, trace + [Cancel]).phase.Terminated?
    ensures FirstExit(trace).None? ==>
      Pump(c, trace + [Cancel]).killRequested
      && Pump(c, trace + [Cancel]).phase == Terminated(Cancelled)
  {
    RunAppend(Start(c), trace, [Cancel]);
    var s := Pump(c, trace);
    HeaderFirstCleanupLast(c, trace);
    KillExactlyOnCancel(c, trace);
    assert Run(s, [Cancel]) == Step(s, Cancel);
  }

  // ---------------------------------------------------------------------
  // Rendering to console text

  /** The `[i] ` prefix: the worker number in plain decimal. */
  function Prefix(id: nat): string {
    "[" + FromNat(id) + "] "
  }

  /** One printed record as a console line. */
  function Render(id: nat, o: Output): string {
    Prefix(id) + match o
      case Header(program, args) => program + " " + Join(args, ' ')
      case Echo(text) => text
      case ShutdownNotice => "Received shutdown signal..."
      case CleanedUp => "Cleaned up."
  }

  /** The console lines worker `id` prints, in order. */
  function Console(id: nat, c: Command, trace: seq<Event>): (lines: seq<string>)
    ensures |lines| == |Pump(c, trace).printed|
    ensures lines[0] == Prefix(id) + c.program + " " + Join(c.args, ' ')
  {
    var p := Pump(c, trace).printed;
    seq(|p|, j requires 0 <= j < |p| => Render(id, p[j]))
  }

  /** Every console line of worker `id` starts with its `[i] ` prefix. */
  lemma ConsolePrefixed(id: nat, c: Command, trace: seq<Event>)
    ensures forall j :: 0 <= j < |Console(id, c, trace)| ==>
      |Prefix(id)| <= |Console(id, c, trace)[j]|
      && Console(id, c, trace)[j][..|Prefix(id)|] == Prefix(id)
  {
  }

  /** The console text of a worker that stopped at its first exit event `k`. */
  lemma ConsoleText(id: nat, c: Command, trace: seq<Event>, k: nat)
    requires FirstExit(trace) == Some(k)
    ensures var out := Console(id, c, trace);
      && |out| == k + (if trace[k] == Cancel then 3 else 2)
      && out[0] == Prefix(id) + c.program + " " + Join(c.args, ' ')
      && (forall j :: 0 <= j < k ==> out[j + 1] == Prefix(id) + trace[j].text)
      && (trace[k] == Cancel ==> out[k + 1] == Prefix(id) + "Received shutdown signal...")
      && out[|out| - 1] == Prefix(id) + "Cleaned up."
  {
    PumpMatchesReference(c, trace);
    var p := Pump(c, trace).printed;
    assert p == [Header(c.program, c.args)] + Echoes(trace[..k]) + Closing(trace[k]);
    forall j | 0 <= j < k
      ensures p[j + 1] == Echo(trace[j].text)
    {
    }
  }
}
