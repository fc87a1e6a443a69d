/** The structured logger of src/utils/logger.ts.

    Every call builds one record (timestamp, upper-cased level, message,
    metadata) and writes it as one line to the console. The console is the
    only state: it is modelled as a `Console` object whose `lines` only grow.
    The logger itself keeps nothing between calls; it only knows which console
    it writes to. The clock is a parameter (`now`) of every call. */
module Logging {
  import opened Wrappers

  /** The five public entry points of the logger, by the level they log at. */
  datatype Level = Info | Error | Warn | Debug | Http

  /** The level string each wrapper passes to the private `log`. */
  function Name(level: Level): string
  {
    match level
    case Info => "info"
    case Error => "error"
    case Warn => "warn"
    case Debug => "debug"
    case Http => "http"
  }

  /** A JSON value as it may appear in a record's metadata. Numbers are
      kept as exact reals. */
  datatype Json =
    | JNull
    | JBool(b: bool)
    | JNumber(n: real)
    | JString(s: string)
    | JArray(items: seq<Json>)
    | JObject(fields: map<string, Json>)

  /** The metadata argument: a record from keys to JSON values. */
  type Metadata = map<string, Json>

  /** One line of output. */
  datatype LogEntry = LogEntry(timestamp: string, level: string, message: string, metadata: Option<Metadata>)

  /** A call of one of the public logger methods, as a value. */
  datatype LogCall = LogCall(level: Level, message: string, metadata: Option<Metadata>)

  predicate IsLower(c: char) { 'a' <= c <= 'z' }

  /** String.prototype.toUpperCase on one character, for the ASCII range. */
  function UpperChar(c: char): char
  {
    if IsLower(c) then (c as int - 32) as char else c
  }

  /** String.prototype.toUpperCase, for ASCII letters. */
  function ToUpper(s: string): (r: string)
    ensures |r| == |s|
    ensures forall i | 0 <= i < |s| :: r[i] == UpperChar(s[i])
  {
    if s == [] then [] else [UpperChar(s[0])] + ToUpper(s[1..])
  }

  /** Upper-casing leaves no lower-case letter behind, changes nothing that
      is not a lower-case letter, and so is idempotent. */
  lemma ToUpperNormalises(s: string)
    ensures forall i | 0 <= i < |s| :: !IsLower(ToUpper(s)[i])
    ensures forall i | 0 <= i < |s| && !IsLower(s[i]) :: ToUpper(s)[i] == s[i]
    ensures ToUpper(ToUpper(s)) == ToUpper(s)
  {
  }

  /** The record the private `log` builds for a level string. */
  function MakeEntry(now: string, level: string, message: string, metadata: Option<Metadata>): LogEntry
  {
    LogEntry(now, ToUpper(level), message, metadata)
  }

  /** The record written for a call of a public logger method. */
  function EntryOf(now: string, call: LogCall): LogEntry
  {
    MakeEntry(now, Name(call.level), call.message, call.metadata)
  }

  /** The level each wrapper writes. */
  function Label(level: Level): string
  {
    match level
    case Info => "INFO"
    case Error => "ERROR"
    case Warn => "WARN"
    case Debug => "DEBUG"
    case Http => "HTTP"
  }

  /** Each wrapper writes the upper-case form of its own level name. */
  lemma UpperLabel(level: Level)
    ensures ToUpper(Name(level)) == Label(level)
  {
    var name, upper := Name(level), Label(level);
    assert |name| == |upper|;
    forall i | 0 <= i < |name|
      ensures ToUpper(name)[i] == upper[i]
    {
      assert IsLower(name[i]) && upper[i] as int == name[i] as int - 32;
    }
  }

  /** console.log: an append-only sequence of written records. */
  class Console {
    var lines: seq<LogEntry>

    constructor()
      ensures lines == []
    {
      lines := [];
    }

    method WriteLine(entry: LogEntry)
      modifies this
      ensures lines == old(lines) + [entry]
    {
      lines := lines + [entry];
    }
  }

  class Logger {
    /** The sink; the logger has no other state. */
    const console: Console

    constructor(console: Console)
      ensures this.console == console
    {
      this.console := console;
    }

    /** The private `log`: one record, level upper-cased, message and
        metadata unchanged, appended after everything written before. */
    method Log(now: string, level: string, message: string, metadata: Option<Metadata>)
      modifies console
      ensures console.lines == old(console.lines) + [LogEntry(now, ToUpper(level), message, metadata)]
    {
      console.WriteLine(MakeEntry(now, level, message, metadata));
    }

    method Info(now: string, message: string, metadata: Option<Metadata>)
      modifies console
      ensures console.lines == old(console.lines) + [LogEntry(now, "INFO", message, metadata)]
    {
      UpperLabel(Level.Info);
      Log(now, Name(Level.Info), message, metadata);
    }

    method Error(now: string, message: string, metadata: Option<Metadata>)
      modifies console
      ensures console.lines == old(console.lines) + [LogEntry(now, "ERROR", message, metadata)]
    {
      UpperLabel(Level.Error);
      Log(now, Name(Level.Error), message, metadata);
    }

    method Warn(now: string, message: string, metadata: Option<Metadata>)
      modifies console
      ensures console.lines == old(console.lines) + [LogEntry(now, "WARN", message, metadata)]
    {
      UpperLabel(Level.Warn);
      Log(now, Name(Level.Warn), message, metadata);
    }

    /** No threshold: a debug call is always written. */
    method Debug(now: string, message: string, metadata: Option<Metadata>)
      modifies console
      ensures console.lines == old(console.lines) + [LogEntry(now, "DEBUG", message, metadata)]
    {
      UpperLabel(Level.Debug);
      Log(now, Name(Level.Debug), message, metadata);
    }

    method Http(now: string, message: string, metadata: Option<Metadata>)
      modifies console
      ensures console.lines == old(console.lines) + [LogEntry(now, "HTTP", message, metadata)]
    {
      UpperLabel(Level.Http);
      Log(now, Name(Level.Http), message, metadata);
    }

    /** Makes the call `call` describes, through the matching wrapper. */
    method Emit(now: string, call: LogCall)
      modifies console
      ensures console.lines == old(console.lines) + [EntryOf(now, call)]
    {
      UpperLabel(call.level);
      match call.level
      case Info => Info(now, call.message, call.metadata);
      case Error => Error(now, call.message, call.metadata);
      case Warn => Warn(now, call.message, call.metadata);
      case Debug => Debug(now, call.message, call.metadata);
      case Http => Http(now, call.message, call.metadata);
    }
  }
}
