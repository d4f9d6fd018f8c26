/** The event logger: one NDJSON file per UTC day, named
    "<logDir>/metrics-<date>.ndjson", opened for append and swapped when the
    date changes. A file's content is modelled as its sequence of entries (one
    line each); the JSON encoding of an entry is not modelled. Opening and
    writing may fail; whether they do is a parameter of each call. */
module Logging {
  import opened Base
  import opened Text
  import opened Clock
  import opened Events
  import opened Metrics

  /** One log line. A nil reason list and an empty one encode alike (the field
      is omitted), so both are []. */
  datatype LogEntry = LogEntry(timestamp: string, eventType: string, metric: string,
                               reasons: seq<string>, metrics: Snapshot)

  /** The logger's file field: no file yet, or a handle on a path, which Close
      (or a rotation) may have closed. */
  datatype Handle = NoFile | Open(path: string, closed: bool)

  datatype LoggerState = LoggerState(file: Handle, date: string)

  /** The files the logger can see: path to the entries written to it. */
  type Files = map<string, seq<LogEntry>>

  /** The path of the log file for a date ("2006-01-02"). */
  function LogFileName(logDir: string, date: string): (path: string)
    ensures HasSuffix(path, LogBaseName(date))
  {
    JoinPath(logDir, LogBaseName(date))
  }

  /** The name of the log file of a date, inside the log directory. */
  function LogBaseName(date: string): (name: string)
    ensures |name| == |date| + 15
    ensures name[..8] == "metrics-" && name[8..8 + |date|] == date && name[8 + |date|..] == ".ndjson"
  {
    "metrics-" + date + ".ndjson"
  }

  /** The entries of a path, none if it does not exist. */
  function Get(files: Files, path: string): seq<LogEntry> {
    if path in files then files[path] else []
  }

  /** Opening with create-and-append: an existing file keeps its content. */
  function AfterOpen(files: Files, path: string): Files {
    if path in files then files else files[path := []]
  }

  function Append(files: Files, path: string, entry: LogEntry): Files {
    files[path := Get(files, path) + [entry]]
  }

  /** The entry for an event: the time is the snapshot's, in RFC 3339. */
  function MakeEntry(eventType: string, metric: string, reasons: seq<string>, snap: Snapshot): LogEntry {
    LogEntry(Rfc3339(snap.timestamp), eventType, metric, reasons, snap)
  }

  /** rotateIfNeeded as a transition, for the UTC date of the clock: nothing to
      do while a file is held for today; otherwise the held file is closed and
      today's file opened. A failed open returns an error and keeps the old
      date, so the next call tries again. */
  function RotateStep(st: LoggerState, files: Files, logDir: string, today: string, openOk: bool)
    : (r: (Option<string>, LoggerState, Files))
  {
    if st.file.Open? && st.date == today then (None, st, files)
    else
      var released := if st.file.Open? then st.file.(closed := true) else NoFile;
      if !openOk then (Some("failed to open log file"), st.(file := released), files)
      else
        var path := LogFileName(logDir, today);
        (None, LoggerState(Open(path, false), today), AfterOpen(files, path))
  }

  /** log as a transition: rotate, then append the entry to the held file. A
      rotation error aborts before writing; writing fails when the handle is
      closed or the write itself does not succeed. */
  function LogStep(st: LoggerState, files: Files, logDir: string, today: string, openOk: bool, writeOk: bool, entry: LogEntry)
    : (r: (Option<string>, LoggerState, Files))
  {
    var (err, st1, files1) := RotateStep(st, files, logDir, today, openOk);
    if err.Some? then (err, st1, files1)
    else if st1.file.NoFile? || st1.file.closed || !writeOk then (Some("failed to write log"), st1, files1)
    else (None, st1, Append(files1, st1.file.path, entry))
  }

  /** What the logger keeps true: a held handle is on the file of the held date,
      and an open handle's file exists. */
  predicate ValidState(st: LoggerState, files: Files, logDir: string) {
    st.file.Open? ==> st.file.path == LogFileName(logDir, st.date) && (!st.file.closed ==> st.file.path in files)
  }

  /** While today's file is held, rotation does nothing. */
  lemma RotateSameDayIsNoOp(st: LoggerState, files: Files, logDir: string, today: string, openOk: bool)
    requires st.file.Open? && st.date == today
    ensures RotateStep(st, files, logDir, today, openOk) == (None, st, files)
  {
  }

  /** A rotation that opens a file opens today's file, writable, keeps what that
      file already held, and touches no other file. */
  lemma RotateOpensToday(st: LoggerState, files: Files, logDir: string, today: string)
    requires !(st.file.Open? && st.date == today)
    ensures var (err, st', files') := RotateStep(st, files, logDir, today, true);
            var path := LogFileName(logDir, today);
            && err == None && st' == LoggerState(Open(path, false), today)
            && path in files' && Get(files', path) == Get(files, path)
            && (forall p :: p != path ==> (p in files' <==> p in files) && Get(files', p) == Get(files, p))
  {
  }

  /** A failed open reports an error, keeps the date and every file, leaves no
      writable handle, and the next call with a successful open gets today's
      file. */
  lemma RotateFailureRetries(st: LoggerState, files: Files, logDir: string, today: string)
    requires !(st.file.Open? && st.date == today)
    ensures var (err, st', files') := RotateStep(st, files, logDir, today, false);
            && err.Some? && st'.date == st.date && files' == files
            && (st'.file.NoFile? || st'.file.closed)
            && RotateStep(st', files', logDir, today, true).1 == LoggerState(Open(LogFileName(logDir, today), false), today)
  {
  }

  /** Rotation keeps the logger's state valid. */
  lemma RotatePreservesValid(st: LoggerState, files: Files, logDir: string, today: string, openOk: bool)
    requires ValidState(st, files, logDir)
    ensures var (_, st', files') := RotateStep(st, files, logDir, today, openOk);
            ValidState(st', files', logDir) && files.Keys <= files'.Keys
  {
  }

  /** A successful log call appends exactly that entry to today's file and
      changes no other file; the entry's time is the snapshot's, whatever the
      clock that chose the file says. */
  lemma LogAppendsOne(st: LoggerState, files: Files, logDir: string, today: string, openOk: bool, writeOk: bool,
                      eventType: string, metric: string, reasons: seq<string>, snap: Snapshot)
    requires ValidState(st, files, logDir)
    ensures var entry := MakeEntry(eventType, metric, reasons, snap);
            var (err, st', files') := LogStep(st, files, logDir, today, openOk, writeOk, entry);
            var path := LogFileName(logDir, today);
            err.None? ==>
              && st'.date == today && st'.file == Open(path, false)
              && Get(files', path) == Get(files, path) + [entry]
              && Get(files', path)[|Get(files', path)| - 1].timestamp == Rfc3339(snap.timestamp)
              && (forall p :: p != path ==> (p in files' <==> p in files) && Get(files', p) == Get(files, p))
  {
  }

  /** A failed log call adds no entry to any file. */
  lemma LogFailureWritesNothing(st: LoggerState, files: Files, logDir: string, today: string, openOk: bool, writeOk: bool, entry: LogEntry)
    requires LogStep(st, files, logDir, today, openOk, writeOk, entry).0.Some?
    ensures forall p :: Get(LogStep(st, files, logDir, today, openOk, writeOk, entry).2, p) == Get(files, p)
  {
  }

  /** Log calls keep the logger's state valid. */
  lemma LogPreservesValid(st: LoggerState, files: Files, logDir: string, today: string, openOk: bool, writeOk: bool, entry: LogEntry)
    requires ValidState(st, files, logDir)
    ensures var (_, st', files') := LogStep(st, files, logDir, today, openOk, writeOk, entry);
            ValidState(st', files', logDir)
  {
    RotatePreservesValid(st, files, logDir, today, openOk);
  }

  /** After Close, the rest of the day's log calls fail without writing: the
      closed handle is still held for today, so no rotation replaces it. */
  lemma LogAfterCloseFails(st: LoggerState, files: Files, logDir: string, today: string, openOk: bool, writeOk: bool, entry: LogEntry)
    requires st.file.Open? && st.file.closed && st.date == today
    ensures LogStep(st, files, logDir, today, openOk, writeOk, entry) == (Some("failed to write log"), st, files)
  {
  }

  /** The file system the logger writes into. */
  class FileStore {
    var files: Files

    constructor (files: Files)
      ensures this.files == files
    {
      this.files := files;
    }

    method OpenForAppend(path: string)
      modifies this
      ensures files == AfterOpen(old(files), path)
    {
      if path !in files {
        files := files[path := []];
      }
    }

    method Write(path: string, entry: LogEntry)
      modifies this
      ensures files == Append(old(files), path, entry)
    {
      files := files[path := Get(files, path) + [entry]];
    }
  }

  /** The logger object. now is the clock reading of the call. */
  class Logger {
    const logDir: string
    const store: FileStore
    var file: Handle
    var date: string

    function State(): LoggerState
      reads this
    {
      LoggerState(file, date)
    }

    constructor (logDir: string, store: FileStore)
      ensures this.logDir == logDir && this.store == store && State() == LoggerState(NoFile, "")
    {
      this.logDir := logDir;
      this.store := store;
      file := NoFile;
      date := "";
    }

    /** Creates the directory (which may fail) and a logger holding today's file. */
    static method NewLogger(logDir: string, store: FileStore, now: int, mkdirOk: bool, openOk: bool)
      returns (logger: Logger?, err: Option<string>)
      modifies store
      ensures !mkdirOk ==> logger == null && err == Some("failed to create log dir") && store.files == old(store.files)
      ensures mkdirOk ==>
                var (e, st, fs) := RotateStep(LoggerState(NoFile, ""), old(store.files), logDir, UtcDate(now), openOk);
                err == e && store.files == fs
                && (e.None? ==> logger != null && fresh(logger) && logger.State() == st
                                && logger.logDir == logDir && logger.store == store)
                && (e.Some? ==> logger == null)
    {
      if !mkdirOk {
        return null, Some("failed to create log dir");
      }
      var l := new Logger(logDir, store);
      err := l.RotateIfNeeded(now, openOk);
      if err.Some? {
        return null, err;
      }
      return l, None;
    }

    method RotateIfNeeded(now: int, openOk: bool) returns (err: Option<string>)
      modifies this, store
      ensures (err, State(), store.files) == RotateStep(old(State()), old(store.files), logDir, UtcDate(now), openOk)
    {
      var currentDate := UtcDate(now);
      if file.Open? && date == currentDate {
        return None;
      }
      if file.Open? {
        file := file.(closed := true);
      }
      var filename := LogFileName(logDir, currentDate);
      if !openOk {
        return Some("failed to open log file");
      }
      store.OpenForAppend(filename);
      file := Open(filename, false);
      date := currentDate;
      return None;
    }

    method Log(eventType: string, metric: string, reasons: seq<string>, snap: Snapshot, now: int, openOk: bool, writeOk: bool)
      returns (err: Option<string>)
      modifies this, store
      ensures (err, State(), store.files)
              == LogStep(old(State()), old(store.files), logDir, UtcDate(now), openOk, writeOk, MakeEntry(eventType, metric, reasons, snap))
    {
      err := RotateIfNeeded(now, openOk);
      if err.Some? {
        return;
      }
      var entry := LogEntry(Rfc3339(snap.timestamp), eventType, metric, reasons, snap);
      if file.NoFile? || file.closed || !writeOk {
        return Some("failed to write log");
      }
      store.Write(file.path, entry);
      return None;
    }

    method LogSample(snap: Snapshot, now: int, openOk: bool, writeOk: bool) returns (err: Option<string>)
      modifies this, store
      ensures (err, State(), store.files)
              == LogStep(old(State()), old(store.files), logDir, UtcDate(now), openOk, writeOk, MakeEntry("sample", "sample", [], snap))
    {
      err := Log("sample", "sample", [], snap, now, openOk, writeOk);
    }

    method LogSpike(snap: Snapshot, spikeTypes: seq<string>, now: int, openOk: bool, writeOk: bool) returns (err: Option<string>)
      modifies this, store
      ensures (err, State(), store.files)
              == LogStep(old(State()), old(store.files), logDir, UtcDate(now), openOk, writeOk,
                         MakeEntry("spike", MetricFor(spikeTypes), spikeTypes, snap))
    {
      var metric := "multi";
      if |spikeTypes| == 1 {
        metric := spikeTypes[0];
      }
      err := Log("spike", metric, spikeTypes, snap, now, openOk, writeOk);
    }

    method LogAlert(snap: Snapshot, alertTypes: seq<string>, now: int, openOk: bool, writeOk: bool) returns (err: Option<string>)
      modifies this, store
      ensures (err, State(), store.files)
              == LogStep(old(State()), old(store.files), logDir, UtcDate(now), openOk, writeOk,
                         MakeEntry("alert", MetricFor(alertTypes), alertTypes, snap))
    {
      var metric := "multi";
      if |alertTypes| == 1 {
        metric := alertTypes[0];
      }
      err := Log("alert", metric, alertTypes, snap, now, openOk, writeOk);
    }

    /** Closes the held file; closing it a second time is an error. */
    method Close() returns (err: Option<string>)
      modifies this
      ensures old(file).NoFile? ==> err == None && file == NoFile
      ensures old(file).Open? ==> file == old(file).(closed := true) && (err.Some? <==> old(file).closed)
      ensures date == old(date)
    {
      if file.Open? {
        if file.closed {
          return Some("file already closed");
        }
        file := file.(closed := true);
      }
      return None;
    }
  }
}
