/** The screen writer (server/terminal/terminal.go) and the log writer around it
    (server/eventlog/eventlog.go) as objects. */
module Writers {
  import opened Bytes
  import opened ParserSpec
  import opened Parsers
  import opened ScreenSpec
  import opened Screens
  import opened Windows
  import opened Wrappers

  class ScreenWriter {
    const s: Screen
    const p: Parser

    ghost predicate Valid()
      reads this, s, p
    {
      p.screen == s && IsInstructions(p.instructions) && ScreenSpec.Valid(s.State())
    }

    constructor (codec: ElementCodec)
      ensures Valid() && fresh(s) && fresh(p)
      ensures p.State() == START && s.State() == NewScreen(MAX_BUILD_LOG_LINES) && p.codec == codec
    {
      var screen := new Screen(MAX_BUILD_LOG_LINES);
      s := screen;
      p := new Parser(screen, codec);
    }

    method Write(data: seq<Byte>) returns (n: nat)
      requires Valid()
      modifies s, p
      ensures Valid() && n == |data|
      ensures p.State() == ParseChunk(old(p.State()), data).state
      ensures s.State() == Parse(p.codec, old(p.State()), old(s.State()), data)
    {
      ghost var _ := p.ParseChunk(data);
      n := |data|;
    }

    method RenderAsANSI() returns (text: seq<Byte>)
      ensures text == AsANSI(s.rows)
    {
      text := s.AsANSI();
    }

    method PopExtraLinesAsANSI(linesToRetain: nat) returns (popped: seq<Byte>)
      requires Valid()
      modifies s
      ensures Valid()
      ensures s.State() == Pop(old(s.State()), linesToRetain)
      ensures popped == AsANSI(old(s.rows)[..PopCount(old(s.State()), linesToRetain)])
    {
      popped := s.PopExtraLines(linesToRetain);
    }
  }

  /** Where the log writer sends its output: stable bytes are appended, the tail is replaced. */
  class TailSink {
    var flushed: seq<Byte>
    var tail: seq<Byte>

    constructor ()
      ensures flushed == [] && tail == []
    {
      flushed, tail := [], [];
    }

    /** A missing tail leaves the one before in place. */
    method WriteWithTail(data: seq<Byte>, newTail: Option<seq<Byte>>)
      modifies this
      ensures flushed == old(flushed) + data
      ensures tail == if newTail.Some? then newTail.value else old(tail)
    {
      flushed := flushed + data;
      if newTail.Some? {
        tail := newTail.value;
      }
    }
  }

  class ANSICursorBufferWriter {
    const sink: TailSink
    const screenWriter: ScreenWriter
    const numLinesToRetainForANSICursor: nat
    ghost var silent: nat

    ghost predicate Valid()
      reads this, sink, screenWriter, screenWriter.s, screenWriter.p
    {
      screenWriter.Valid()
    }

    ghost function State(): WriterState
      reads this, sink, screenWriter, screenWriter.s, screenWriter.p
    {
      WriterState(screenWriter.p.State(), screenWriter.s.State(), sink.flushed, sink.tail, silent)
    }

    constructor (codec: ElementCodec, numLinesToRetain: nat)
      ensures Valid() && State() == NewWriter()
      ensures screenWriter.p.codec == codec && numLinesToRetainForANSICursor == numLinesToRetain
      ensures fresh(sink) && fresh(screenWriter.s) && fresh(screenWriter.p)
    {
      sink := new TailSink();
      screenWriter := new ScreenWriter(codec);
      numLinesToRetainForANSICursor := numLinesToRetain;
      silent := 0;
    }

    method Write(data: seq<Byte>)
      requires Valid()
      modifies this, sink, screenWriter.s, screenWriter.p
      ensures Valid()
      ensures IsWriter(old(State()))
      ensures State() == WriteChunk(screenWriter.p.codec, numLinesToRetainForANSICursor, old(State()), data)
    {
      if |data| == 0 {
        sink.WriteWithTail(data, None);
        return;
      }
      var _ := screenWriter.Write(data);
      ghost var grown := screenWriter.s.State();
      var popped := screenWriter.PopExtraLinesAsANSI(numLinesToRetainForANSICursor);
      silent := silent + if PopCount(grown, numLinesToRetainForANSICursor) == 1 && popped == [] then 1 else 0;
      if |popped| != 0 {
        popped := popped + [NEWLINE];
      }
      var rendered := screenWriter.RenderAsANSI();
      sink.WriteWithTail(popped, Some(rendered));
    }
  }
}
