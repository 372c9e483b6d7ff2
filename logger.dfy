/**
 * The logger front end (include/MyLogger/MyLogger.hpp): it writes the file
 * header when it is built, one line group per log call and the footer when
 * it is destroyed. The ghost state records the line groups logged so far,
 * and the invariant ties the writer's output to them.
 */
module MyLogger {
  import opened OtelFormat
  import opened OtelLevel
  import opened LogTrace
  import opened TraceIds
  import opened LogWriting

  /** The strings of the groups, one group after the other. */
  function Flatten(groups: seq<seq<string>>): (r: seq<string>)
  {
    if groups == [] then [] else Flatten(groups[..|groups| - 1]) + groups[|groups| - 1]
  }

  /** The text of the strings, written one after the other. */
  function Concat(parts: seq<string>): string
  {
    if parts == [] then "" else Concat(parts[..|parts| - 1]) + parts[|parts| - 1]
  }

  /** What a logger writes: the header, the logged groups, and the footer once it has been destroyed. */
  function Output(ff: FileFormatter, groups: seq<seq<string>>, destroyed: bool): seq<string>
  {
    UnlessEmpty(Header(ff)) + Flatten(groups) + (if destroyed then UnlessEmpty(Footer(ff)) else [])
  }

  class Logger {
    const writer: LogWriter
    /** Owned by the logger but used by none of its operations. */
    const lineFormatter: LineFormatter
    const fileFormatter: FileFormatter
    /** What the writer held before the logger took it over. */
    ghost const initial: seq<string>
    /** The groups the log calls wrote, oldest first. */
    ghost var groups: seq<seq<string>>
    ghost var destroyed: bool

    ghost predicate Valid()
      reads this, writer
    {
      writer.written == initial + Output(fileFormatter, groups, destroyed) &&
      AllEndWith(groups, FormatEnd(writer.formatter))
    }

    /** The constructor writes the header through the writer. */
    constructor (writer: LogWriter, lineFormatter: LineFormatter, fileFormatter: FileFormatter)
      modifies writer`written
      ensures this.writer == writer && this.lineFormatter == lineFormatter && this.fileFormatter == fileFormatter
      ensures writer.written == old(writer.written) + UnlessEmpty(Header(fileFormatter))
      ensures initial == old(writer.written) && groups == [] && !destroyed
      ensures Valid()
    {
      this.writer := writer;
      this.lineFormatter := lineFormatter;
      this.fileFormatter := fileFormatter;
      initial := writer.written;
      groups := [];
      destroyed := false;
      new;
      writer.WriteHeader(fileFormatter);
    }

    /** log(level, trace): one writeLine group for the trace. */
    method Log(level: LogLevel, t: Trace, now1: U64, now2: U64)
      requires Valid() && !destroyed
      modifies writer`written, this`groups
      ensures Valid() && !destroyed
      ensures var g := LineGroup(FormatBegin(writer.formatter, level),
        Middle(writer.formatter, t.View(), t.DurationNanos(now1), t.DurationNanos(now2)), FormatEnd(writer.formatter));
        writer.written == old(writer.written) + g && groups == old(groups) + [g]
    {
      ghost var g := LineGroup(FormatBegin(writer.formatter, level),
        Middle(writer.formatter, t.View(), t.DurationNanos(now1), t.DurationNanos(now2)), FormatEnd(writer.formatter));
      ghost var before := writer.written;
      writer.WriteTraceLine(level, t, now1, now2);
      LoggedGroupKeepsOutput(writer.written, before, initial, fileFormatter, groups, g);
      AllEndWithAppend(groups, g, FormatEnd(writer.formatter));
      groups := groups + [g];
    }

    /** log(level, message): one writeLine group for the message. */
    method LogMessage(level: LogLevel, message: string)
      requires Valid() && !destroyed
      modifies writer`written, this`groups
      ensures Valid() && !destroyed
      ensures var g := LineGroup(FormatBegin(writer.formatter, level), message, FormatEnd(writer.formatter));
        writer.written == old(writer.written) + g && groups == old(groups) + [g]
    {
      ghost var g := LineGroup(FormatBegin(writer.formatter, level), message, FormatEnd(writer.formatter));
      ghost var before := writer.written;
      writer.WriteMessageLine(level, message);
      LoggedGroupKeepsOutput(writer.written, before, initial, fileFormatter, groups, g);
      AllEndWithAppend(groups, g, FormatEnd(writer.formatter));
      groups := groups + [g];
    }

    /** flush: the written content does not change. */
    method Flush()
      requires Valid()
      ensures writer.written == old(writer.written) && Valid()
    {
      writer.Flush();
    }

    /** The destructor writes the footer. */
    method Destroy()
      requires Valid() && !destroyed
      modifies writer`written, this`destroyed
      ensures Valid() && destroyed && groups == old(groups)
      ensures writer.written == old(writer.written) + UnlessEmpty(Footer(fileFormatter))
      ensures writer.written == initial + UnlessEmpty(Header(fileFormatter)) + Flatten(groups) + UnlessEmpty(Footer(fileFormatter))
    {
      writer.WriteFooter(fileFormatter);
      destroyed := true;
    }
  }

  /** Every group has three strings and ends with `end`. */
  ghost predicate AllEndWith(groups: seq<seq<string>>, end: string)
  {
    forall i :: 0 <= i < |groups| ==> |groups[i]| == 3 && groups[i][2] == end
  }

  /** A group of three strings ending with `end` keeps AllEndWith. */
  lemma AllEndWithAppend(groups: seq<seq<string>>, g: seq<string>, end: string)
    requires AllEndWith(groups, end) && |g| == 3 && g[2] == end
    ensures AllEndWith(groups + [g], end)
  {
    forall i | 0 <= i < |groups + [g]|
      ensures |(groups + [g])[i]| == 3 && (groups + [g])[i][2] == end
    {
      if i < |groups| {
        assert (groups + [g])[i] == groups[i];
      } else {
        assert (groups + [g])[i] == g;
      }
    }
  }

  /** After one more logged group the writer's output still matches the logger's record. */
  lemma LoggedGroupKeepsOutput(written: seq<string>, before: seq<string>, initial: seq<string>,
                               ff: FileFormatter, groups: seq<seq<string>>, g: seq<string>)
    requires before == initial + Output(ff, groups, false)
    requires written == before + g
    ensures written == initial + Output(ff, groups + [g], false)
  {
    OutputAppend(ff, groups, g);
    SeqAssoc(initial, Output(ff, groups, false), g);
  }

  lemma SeqAssoc<T>(a: seq<T>, b: seq<T>, c: seq<T>)
    ensures (a + b) + c == a + (b + c)
  {
  }

  /** A logged group extends the output of a logger that is still alive by its strings. */
  lemma OutputAppend(ff: FileFormatter, groups: seq<seq<string>>, g: seq<string>)
    ensures Output(ff, groups + [g], false) == Output(ff, groups, false) + g
  {
    assert (groups + [g])[..|groups|] == groups;
    assert Flatten(groups + [g]) == Flatten(groups) + g;
  }

  /** The last string of the groups is the last string of the last group. */
  lemma FlattenLast(groups: seq<seq<string>>)
    requires groups != [] && groups[|groups| - 1] != []
    ensures Flatten(groups) != [] && Flatten(groups)[|Flatten(groups)| - 1] == groups[|groups| - 1][|groups[|groups| - 1]| - 1]
  {
  }

  /**
   * An OpenTelemetry log file with at least one logged line ends with the
   * separator of its last line right before the footer: `,\n] }\n`, a
   * trailing comma inside the trace array.
   */
  lemma {:induction false} OpenTelemetryFileEndsWithComma(groups: seq<seq<string>>)
    requires |groups| >= 1
    requires AllEndWith(groups, ",\n")
    ensures var text := Concat(Output(OpenTelemetryFile, groups, true));
      |text| >= 6 && text[|text| - 6..] == ",\n] }\n"
  {
    var body := UnlessEmpty(Header(OpenTelemetryFile)) + Flatten(groups);
    assert Output(OpenTelemetryFile, groups, true) == body + [OtelFooter];
    FlattenLast(groups);
    assert body[|body| - 1] == ",\n";
    ConcatLast(body + [OtelFooter]);
    assert (body + [OtelFooter])[..|body|] == body;
    ConcatLast(body);
    var front := Concat(body[..|body| - 1]);
    assert Concat(Output(OpenTelemetryFile, groups, true)) == (front + ",\n") + OtelFooter;
    SeqAssoc(front, ",\n", OtelFooter);
    assert ",\n" + OtelFooter == ",\n] }\n";
    EndsWith(front, ",\n] }\n");
  }

  /** The text of non-empty parts ends with the last part. */
  lemma ConcatLast(parts: seq<string>)
    requires parts != []
    ensures Concat(parts) == Concat(parts[..|parts| - 1]) + parts[|parts| - 1]
  {
  }

  lemma EndsWith(a: string, b: string)
    ensures |a + b| >= |b| && (a + b)[|a + b| - |b|..] == b
  {
  }
}
