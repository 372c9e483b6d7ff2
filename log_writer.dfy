/**
 * The writer strategy (include/MyLogger/Strategies/LogWriter.hpp). What the
 * derived writer's writeImpl does with a string (a file, the console, a
 * socket) is not modelled: every string it is handed is appended to
 * `written`, in order. The mutex is left out; calls are sequential.
 */
module LogWriting {
  import opened OtelFormat
  import opened OtelLevel
  import opened LogTrace
  import opened TraceIds

  /** The three strings one writeLine call hands to writeImpl, in order. */
  function LineGroup(begin: string, middle: string, end: string): (g: seq<string>)
    ensures |g| == 3 && g[0] == begin && g[1] == middle && g[2] == end
  {
    [begin, middle, end]
  }

  /** What writeHeader and writeFooter hand to writeImpl: the string, unless it is empty. */
  function UnlessEmpty(s: string): (g: seq<string>)
    ensures g == [] <==> s == ""
    ensures g != [] ==> g == [s]
  {
    if s == "" then [] else [s]
  }

  class LogWriter {
    /** The line formatter the writer was given a reference to. */
    const formatter: LineFormatter
    /** Every string handed to writeImpl, oldest first. */
    var written: seq<string>

    constructor (formatter: LineFormatter)
      ensures this.formatter == formatter && written == []
    {
      this.formatter := formatter;
      written := [];
    }

    /** writeLine(level, trace): begin, the trace as formatted, end. */
    method WriteTraceLine(level: LogLevel, t: Trace, now1: U64, now2: U64)
      modifies this`written
      ensures written == old(written) +
        LineGroup(FormatBegin(formatter, level), Middle(formatter, t.View(), t.DurationNanos(now1), t.DurationNanos(now2)), FormatEnd(formatter))
    {
      var begin := FormatBegin(formatter, level);
      var middle := FormatMiddle(formatter, t, now1, now2);
      var end := FormatEnd(formatter);
      written := written + [begin];
      written := written + [middle];
      written := written + [end];
    }

    /** writeLine(level, message): begin, the message unchanged, end. */
    method WriteMessageLine(level: LogLevel, message: string)
      modifies this`written
      ensures written == old(written) + LineGroup(FormatBegin(formatter, level), message, FormatEnd(formatter))
    {
      var begin := FormatBegin(formatter, level);
      var end := FormatEnd(formatter);
      written := written + [begin];
      written := written + [message];
      written := written + [end];
    }

    /** flush: the derived flushImpl pushes buffered output out; nothing is added. */
    method Flush()
      ensures written == old(written)
    {
    }

    /** writeHeader: the file formatter's header, when it is not empty. */
    method WriteHeader(ff: FileFormatter)
      modifies this`written
      ensures written == old(written) + UnlessEmpty(Header(ff))
    {
      var header := Header(ff);
      if header != "" {
        written := written + [header];
      }
    }

    /** writeFooter: the file formatter's footer, when it is not empty. */
    method WriteFooter(ff: FileFormatter)
      modifies this`written
      ensures written == old(written) + UnlessEmpty(Footer(ff))
    {
      var footer := Footer(ff);
      if footer != "" {
        written := written + [footer];
      }
    }
  }
}
