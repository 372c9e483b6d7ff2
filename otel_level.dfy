/**
 * The OpenTelemetry-compatible log level (OpenTelemetryLevel.hpp). The C++
 * `enum class LogLevel` has `int` as underlying type, so a cast can produce
 * any integer; the model keeps that integer and names the six enumerators.
 */
module OtelLevel {
  datatype LogLevel = LogLevel(value: int)

  const TRACE := LogLevel(1)
  const DEBUG := LogLevel(5)
  const INFO := LogLevel(9)
  const WARNING := LogLevel(13)
  const ERROR := LogLevel(17)
  const FATAL := LogLevel(21)

  /** The six enumerators, in declaration order. */
  const Levels: seq<LogLevel> := [TRACE, DEBUG, INFO, WARNING, ERROR, FATAL]

  /** OpenTelemetry severity ranges are bands of four numbers; these are their short names, lowest band first. */
  const BandNames: seq<string> := ["TRACE", "DEBUG", "INFO", "WARN", "ERROR", "FATAL"]

  predicate IsEnumerator(l: LogLevel) { l in Levels }

  /** to_string: the switch over the enumerators, "UNKNOWN" for any other value. */
  function ToString(l: LogLevel): (r: string)
    ensures r != "UNKNOWN" <==> IsEnumerator(l)
    ensures IsEnumerator(l) ==> 1 <= l.value <= 24 && r == BandNames[(l.value - 1) / 4]
  {
    match l.value
    case 1 => "TRACE"
    case 5 => "DEBUG"
    case 9 => "INFO"
    case 13 => "WARN"
    case 17 => "ERROR"
    case 21 => "FATAL"
    case _ => "UNKNOWN"
  }

  /** to_severity_number: the underlying integer. */
  function ToSeverityNumber(l: LogLevel): (n: int)
    ensures LogLevel(n) == l
  {
    l.value
  }

  /**
   * Each enumerator is the first number of its own OpenTelemetry band, the
   * bands come in increasing order, and the names tell the levels apart.
   */
  lemma {:induction false} EnumeratorsStartTheirBands(i: nat, j: nat)
    requires i < j < |Levels|
    ensures ToSeverityNumber(Levels[i]) == 4 * i + 1
    ensures ToSeverityNumber(Levels[i]) < ToSeverityNumber(Levels[j])
    ensures ToString(Levels[i]) != ToString(Levels[j])
  {
    assert ToString(Levels[i]) == BandNames[i] && ToString(Levels[j]) == BandNames[j];
  }
}
