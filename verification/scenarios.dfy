/**
 * Concrete runs of a single worker, worked out from the definitions.
 */
module Scenarios {
  import opened Invocation
  import opened OutputPump

  function SampleTrace(): seq<Event> {
    [Line(""), Line("hello"), Line(""), Line("world"), Eof]
  }
  function SampleCommand(): Command {
    Command("herd", ["php", "artisan", "queue:listen"])
  }

  /** A worker whose stream yields "", "hello", "", "world" and closes echoes
      all four lines, the empty ones too, and stops without a kill. */
  lemma EmptyLinesArePrinted()
    ensures Pump(SampleCommand(), SampleTrace())
         == PumpState(Terminated(StreamClosed),
                      [Header("herd", ["php", "artisan", "queue:listen"]),
                       Echo(""), Echo("hello"), Echo(""), Echo("world"), CleanedUp],
                      false)
  {
  }

  /** The prefix is the worker number in brackets. A worked instance: for
      every id the number is canonical decimal, without padding, by the
      contract of `Decimal.FromNat`. */
  lemma PlainPrefix()
    ensures Prefix(1) == "[1] "
  {
  }

  /** Rendered for worker 1, the two empty lines show up as bare `[1] ` prefixes,
      in their places between the header and `Cleaned up.`. */
  lemma EmptyLinesAreEchoed()
    ensures |Console(1, SampleCommand(), SampleTrace())| == 6
    ensures Console(1, SampleCommand(), SampleTrace())[1] == "[1] "
    ensures Console(1, SampleCommand(), SampleTrace())[2] == "[1] hello"
    ensures Console(1, SampleCommand(), SampleTrace())[3] == "[1] "
    ensures Console(1, SampleCommand(), SampleTrace())[4] == "[1] world"
    ensures Console(1, SampleCommand(), SampleTrace())[5] == "[1] Cleaned up."
  {
  }
}
