/**
 * The violation record: a closed severity enumeration with its display names,
 * and `NormMessage`, which carries a file name, a line (0 for the whole file),
 * a message and a severity.
 */
module Types {
  import opened Wrappers
  import opened PyStr

  /** The four concrete severity classes. */
  datatype Severity = Ok | Info | Minor | Major
  {
    /** `str(severity)`: the display name. */
    function Name(): (s: string)
      ensures |s| >= 2
    {
      match this
      case Ok => "Ok"
      case Info => "Info"
      case Minor => "Minor"
      case Major => "Major"
    }
  }

  /** The classes a severity may be instantiated from: the abstract base and its
      four subclasses. */
  datatype SeverityClass = BaseSeverity | OkSeverity | InfoSeverity | MinorSeverity | MajorSeverity

  /** Instantiating a severity class: the base class always raises (`None`), each
      subclass gives the severity whose display name is the class's own. */
  function Instantiate(cls: SeverityClass): (r: Option<Severity>)
    ensures r.None? <==> cls == BaseSeverity
    ensures r.Some? ==> r.value.Name() == match cls
      case OkSeverity => "Ok"
      case InfoSeverity => "Info"
      case MinorSeverity => "Minor"
      case _ => "Major"
  {
    match cls
    case BaseSeverity => None
    case OkSeverity => Some(Ok)
    case InfoSeverity => Some(Info)
    case MinorSeverity => Some(Minor)
    case MajorSeverity => Some(Major)
  }

  /** Display names tell the severities apart by their first two characters. */
  lemma NamesDistinguish(a: Severity, b: Severity)
    requires a.Name()[..2] == b.Name()[..2]
    ensures a == b
  {
    assert Ok.Name()[..2] == "Ok";
    assert Info.Name()[..2] == "In";
    assert Minor.Name()[..2] == "Mi";
    assert Major.Name()[..2] == "Ma";
  }

  /** One reported norm violation (or an informational/ok note). */
  datatype NormMessage = NormMessage(filename: string, line: int, message: string, severity: Severity)
  {
    /** `is_ok()`: only the Ok severity is not a violation. */
    predicate IsOk() {
      severity.Ok?
    }

    /** `str(message)`: "<Severity>: <filename>:<line>: <message>". */
    function ToString(): string {
      severity.Name() + ": " + filename + ":" + IntToString(line) + ": " + message
    }
  }

  /** The plain rendering starts with the severity's display name, so two messages
      that render alike have the same severity. */
  lemma {:induction false} RenderDeterminesSeverity(a: NormMessage, b: NormMessage)
    requires a.ToString() == b.ToString()
    ensures a.severity == b.severity
  {
    assert a.ToString()[..2] == a.severity.Name()[..2];
    assert b.ToString()[..2] == b.severity.Name()[..2];
    NamesDistinguish(a.severity, b.severity);
  }

  /** The plain rendering of a message with a non-negative line ends with the
      line number in decimal followed by ": " and the message. */
  lemma RenderEndsWithLineAndMessage(m: NormMessage)
    requires m.line >= 0
    ensures var r := m.ToString(); var tail := ":" + NatToString(m.line) + ": " + m.message;
      |tail| <= |r| && r[|r| - |tail|..] == tail
  {
    var head := m.severity.Name() + ": " + m.filename;
    var tail := ":" + NatToString(m.line) + ": " + m.message;
    assert m.ToString() == head + tail;
  }

  /** A Python value handed to the `NormMessage` constructor, whose arguments are
      checked at run time. */
  datatype Value = StrValue(s: string) | IntValue(i: int) | SeverityValue(sev: Severity) | OtherValue

  /** Either the constructed message or the TypeError text it raised. */
  datatype Construction = Built(msg: NormMessage) | Raised(error: string)

  /** `NormMessage(filename, line, message, severity)`: the four arguments are checked
      in that order, and the first one of the wrong type raises; otherwise the
      fields hold the arguments unchanged. */
  function NewNormMessage(filename: Value, line: Value, message: Value, severity: Value): (r: Construction)
    ensures r.Built? <==> filename.StrValue? && line.IntValue? && message.StrValue? && severity.SeverityValue?
    ensures r.Built? ==>
      r.msg.filename == filename.s && r.msg.line == line.i && r.msg.message == message.s && r.msg.severity == severity.sev
    ensures !filename.StrValue? ==> r == Raised("filename must be a string")
    ensures filename.StrValue? && !line.IntValue? ==> r == Raised("line must be an integer")
    ensures filename.StrValue? && line.IntValue? && !message.StrValue? ==> r == Raised("message must be a string")
    ensures filename.StrValue? && line.IntValue? && message.StrValue? && !severity.SeverityValue?
      ==> r == Raised("severity must be a Severity object")
  {
    if !filename.StrValue? then Raised("filename must be a string")
    else if !line.IntValue? then Raised("line must be an integer")
    else if !message.StrValue? then Raised("message must be a string")
    else if !severity.SeverityValue? then Raised("severity must be a Severity object")
    else Built(NormMessage(filename.s, line.i, message.s, severity.sev))
  }
}
