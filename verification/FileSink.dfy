/** internal/audit/sinks/file.go with output "file": a log file rotated by size and age. */
module FileSink {
  import opened Basics

  type Line = string

  /** The log file and its numbered backups. */
  datatype Path = Current | Backup(n: nat)

  type Disk = map<Path, seq<Line>>

  const HOUR: int := 3_600_000_000_000

  /** A missing file reads as empty. */
  function Read(d: Disk, p: Path): seq<Line> {
    if p in d then d[p] else []
  }

  function Lookup(d: Disk, p: Path): Option<seq<Line>> {
    if p in d then Some(d[p]) else None
  }

  function Size(lines: seq<Line>): nat {
    if lines == [] then 0 else Size(Front(lines)) + |Last(lines)|
  }

  // ---------- Rotation ----------

  /** Where backup n comes from. */
  function Source(n: nat): Path
    requires n >= 1
  {
    if n == 1 then Current else Backup(n - 1)
  }

  /** What a rotation with `max` backups leaves at a path. */
  function Placed(d: Disk, max: nat, p: Path): Option<seq<Line>> {
    match p
    case Current => Some([])
    case Backup(n) => if 1 <= n <= max then Lookup(d, Source(n)) else Lookup(d, p)
  }

  function Slots(max: nat): set<Path> {
    {Current} + set n: nat | 1 <= n <= max :: Backup(n)
  }

  function Rotated(d: Disk, max: nat): Disk {
    map p | p in Slots(max) + d.Keys && Placed(d, max, p).Some? :: Placed(d, max, p).value
  }

  /** The cascade of renames half-way: backups above i are in place, backup i has moved on. */
  function Cascaded(d: Disk, max: nat, i: nat, p: Path): Option<seq<Line>> {
    match p
    case Current => if i == 0 then None else Lookup(d, Current)
    case Backup(n) =>
      if i < n <= max then Lookup(d, Source(n))
      else if 1 <= n == i < max then None
      else Lookup(d, p)
  }

  class Sink {
    const maxSizeBytes: nat
    const maxAgeHours: int
    const maxBackups: nat
    /** The directory of the log file. The open handle appends to Current. */
    var files: Disk
    var fileCreatedAt: int
    var bytesWritten: nat

    ghost predicate Valid()
      reads this
    {
      maxBackups >= 1 && Current in files
    }

    /** NewFileSink: opening for append creates a missing file and keeps an existing one. */
    constructor (files: Disk, maxSizeMB: int, maxAgeHours: int, maxBackups: int, now: int)
      ensures Valid()
      ensures this.maxSizeBytes == (if maxSizeMB > 0 then maxSizeMB * 1024 * 1024 else -maxSizeMB)
      ensures this.maxAgeHours == maxAgeHours && this.maxBackups == (if maxBackups <= 0 then 1 else maxBackups)
      ensures this.files == files[Current := Read(files, Current)] && bytesWritten == 0 && fileCreatedAt == now
    {
      this.files := files[Current := Read(files, Current)];
      this.fileCreatedAt, this.bytesWritten := now, 0;
      this.maxSizeBytes := if maxSizeMB > 0 then maxSizeMB * 1024 * 1024 else -maxSizeMB;
      this.maxAgeHours := maxAgeHours;
      this.maxBackups := if maxBackups <= 0 then 1 else maxBackups;
    }

    ghost function Settings(): Config
      reads this
    {
      Config(maxSizeBytes, maxAgeHours, maxBackups)
    }

    ghost function Now(): State
      reads this
    {
      State(files, bytesWritten, fileCreatedAt)
    }

    /** os.Rename replaces the target; renaming a missing file does nothing. */
    method Rename(from: Path, to: Path)
      requires from != to
      modifies this`files
      ensures files == if from in old(files) then (old(files) - {from})[to := old(files)[from]] else old(files)
    {
      if from in files {
        files := (files - {from})[to := files[from]];
      }
    }

    method ShouldRotate(now: int) returns (r: bool)
      ensures r == Due(Settings(), bytesWritten, fileCreatedAt, now)
    {
      if maxSizeBytes > 0 && bytesWritten >= maxSizeBytes {
        return true;
      }
      if maxAgeHours != 0 {
        var threshold := fileCreatedAt + maxAgeHours * HOUR;
        if now > threshold {
          return true;
        }
      }
      return false;
    }

    method Rotate(now: int)
      requires Valid()
      modifies this
      ensures Valid() && files == Rotated(old(files), maxBackups)
      ensures bytesWritten == 0 && fileCreatedAt == now
    {
      ghost var was := files;
      var i := maxBackups;
      while i >= 1
        invariant 0 <= i <= maxBackups
        invariant forall p :: Lookup(files, p) == Cascaded(was, maxBackups, i, p)
      {
        var oldPath := if i == 1 then Current else Backup(i - 1);
        var newPath := Backup(i);
        if i == maxBackups {
          files := files - {newPath};
        }
        ghost var before := files;
        assert forall p :: Lookup(before, p) == if p == newPath then None else Cascaded(was, maxBackups, i, p);
        Rename(oldPath, newPath);
        CascadeStep(before, files, was, maxBackups, i);
        i := i - 1;
      }
      assert Lookup(files, Current) == Cascaded(was, maxBackups, 0, Current);
      ghost var moved := files;
      files := files[Current := Read(files, Current)];
      forall p ensures Lookup(files, p) == Placed(was, maxBackups, p) {
        assert Lookup(moved, p) == Cascaded(was, maxBackups, 0, p);
      }
      SameDisk(files, was, maxBackups);
      fileCreatedAt := now;
      bytesWritten := 0;
    }

    method Log(line: Line, now: int)
      requires Valid()
      modifies this
      ensures Valid() && Now() == Logged(Settings(), old(Now()), line, now)
    {
      files := files[Current := files[Current] + [line]];
      bytesWritten := bytesWritten + |line|;
      var due := ShouldRotate(now);
      if due {
        Rotate(now);
      }
    }
  }

  /** One rename of the cascade, of backup i - 1 or the log to backup i. */
  lemma CascadeStep(before: Disk, after: Disk, was: Disk, max: nat, i: nat)
    requires 1 <= i <= max
    requires forall p :: Lookup(before, p) == if p == Backup(i) then None else Cascaded(was, max, i, p)
    requires after == if Source(i) in before then (before - {Source(i)})[Backup(i) := before[Source(i)]] else before
    ensures forall p :: Lookup(after, p) == Cascaded(was, max, i - 1, p)
  {
    assert Lookup(before, Source(i)) == Cascaded(was, max, i, Source(i)) == Lookup(was, Source(i));
    forall p ensures Lookup(after, p) == Cascaded(was, max, i - 1, p) {
      assert Lookup(before, p) == if p == Backup(i) then None else Cascaded(was, max, i, p);
      assert Lookup(after, p) ==
             if p == Backup(i) then Lookup(was, Source(i)) else if p == Source(i) then None else Lookup(before, p);
    }
  }

  lemma SameDisk(d: Disk, was: Disk, max: nat)
    requires forall p :: Lookup(d, p) == Placed(was, max, p)
    ensures d == Rotated(was, max)
  {
    var r := Rotated(was, max);
    forall p ensures Lookup(d, p) == Lookup(r, p) {}
    forall p | p in d ensures p in r && d[p] == r[p] {
      assert Lookup(d, p) == Lookup(r, p);
    }
    forall p | p in r ensures p in d {
      assert Lookup(d, p) == Lookup(r, p);
    }
  }

  /** Every backup moves up by one, present or not, and the log starts empty. */
  lemma RotationMovesEach(d: Disk, max: nat, p: Path)
    ensures Lookup(Rotated(d, max), p) == Placed(d, max, p)
  {}

  /** The paths after a rotation: the log is new, backup 1 is the old log, every other backup is
      the one before it, present or missing, and nothing else changes. */
  lemma RotationPlaces(d: Disk, max: nat, n: nat)
    ensures Lookup(Rotated(d, max), Current) == Some([])
    ensures Lookup(Rotated(d, max), Backup(n)) ==
            if n == 0 || n > max then Lookup(d, Backup(n))
            else if n == 1 then Lookup(d, Current)
            else Lookup(d, Backup(n - 1))
  {
    RotationMovesEach(d, max, Current);
    RotationMovesEach(d, max, Backup(n));
  }

  // ---------- Runs ----------

  datatype Config = Config(maxSizeBytes: nat, maxAgeHours: int, maxBackups: nat)

  datatype State = State(files: Disk, bytesWritten: nat, createdAt: int)

  datatype Write = Write(line: Line, at: int)

  predicate Due(c: Config, bytesWritten: nat, createdAt: int, now: int) {
    (c.maxSizeBytes > 0 && bytesWritten >= c.maxSizeBytes) ||
    (c.maxAgeHours != 0 && now > createdAt + c.maxAgeHours * HOUR)
  }

  function Appended(s: State, line: Line): State {
    State(s.files[Current := Read(s.files, Current) + [line]], s.bytesWritten + |line|, s.createdAt)
  }

  function Logged(c: Config, s: State, line: Line, now: int): State {
    var t := Appended(s, line);
    if Due(c, t.bytesWritten, t.createdAt, now) then State(Rotated(t.files, c.maxBackups), 0, now) else t
  }

  function After(c: Config, s: State, writes: seq<Write>): State {
    if writes == [] then s else Logged(c, After(c, s, Front(writes)), Last(writes).line, Last(writes).at)
  }

  function Lines(writes: seq<Write>): seq<Line> {
    if writes == [] then [] else Lines(Front(writes)) + [Last(writes).line]
  }

  /** Whether the last write of a run rotates the log. */
  predicate Rotates(c: Config, s: State, writes: seq<Write>)
    requires writes != []
  {
    var t := Appended(After(c, s, Front(writes)), Last(writes).line);
    Due(c, t.bytesWritten, t.createdAt, Last(writes).at)
  }

  /** The whole contents of the oldest backups that rotations dropped, oldest first. */
  function Dropped(c: Config, s: State, writes: seq<Write>): seq<Line> {
    if writes == [] then []
    else if Rotates(c, s, writes) then
      Dropped(c, s, Front(writes)) + Read(After(c, s, Front(writes)).files, Backup(c.maxBackups))
    else Dropped(c, s, Front(writes))
  }

  /** Backups n down to 1 and then the log. */
  function ReadBack(d: Disk, n: nat): seq<Line> {
    if n == 0 then Read(d, Current) else Read(d, Backup(n)) + ReadBack(d, n - 1)
  }

  lemma {:induction false} RotatedReads(d: Disk, max: nat, n: nat)
    requires 1 <= n <= max
    ensures ReadBack(Rotated(d, max), n) == ReadBack(d, n - 1)
  {
    var r := Rotated(d, max);
    assert Lookup(r, Backup(n)) == Placed(d, max, Backup(n));
    if n == 1 {
      assert Lookup(r, Current) == Placed(d, max, Current);
      assert ReadBack(r, 0) == [];
    } else {
      RotatedReads(d, max, n - 1);
    }
  }

  lemma {:induction false} AppendReads(s: State, line: Line, n: nat)
    ensures ReadBack(Appended(s, line).files, n) == ReadBack(s.files, n) + [line]
  {
    if n > 0 {
      AppendReads(s, line, n - 1);
      assert Read(Appended(s, line).files, Backup(n)) == Read(s.files, Backup(n));
    }
  }

  lemma Shift(all: seq<Line>, lines: seq<Line>, line: Line, gone: seq<Line>, kept: seq<Line>,
              oldest: seq<Line>, rest: seq<Line>)
    requires all + lines == gone + kept && kept + [line] == oldest + rest
    ensures all + (lines + [line]) == (gone + oldest) + rest
    ensures oldest == [] ==> all + (lines + [line]) == gone + rest
  {
    assert all + (lines + [line]) == (gone + kept) + [line];
    assert (gone + kept) + [line] == gone + (kept + [line]);
    assert gone + (oldest + rest) == (gone + oldest) + rest;
  }

  /** In every run, what the backups and the log hold, after what was dropped, is everything
      that was ever written, in order. */
  lemma {:induction false} NothingElseIsLost(c: Config, s: State, writes: seq<Write>)
    requires c.maxBackups >= 1
    ensures ReadBack(s.files, c.maxBackups) + Lines(writes) ==
            Dropped(c, s, writes) + ReadBack(After(c, s, writes).files, c.maxBackups)
  {
    if writes != [] {
      NothingElseIsLost(c, s, Front(writes));
      var before := After(c, s, Front(writes));
      var line := Last(writes).line;
      var all, kept := ReadBack(s.files, c.maxBackups), ReadBack(before.files, c.maxBackups);
      var gone := Dropped(c, s, Front(writes));
      AppendReads(before, line, c.maxBackups);
      Shift(all, Lines(Front(writes)), line, gone, kept, [], kept + [line]);
      if Rotates(c, s, writes) {
        var files := Appended(before, line).files;
        RotatedReads(files, c.maxBackups, c.maxBackups);
        var oldest := Read(before.files, Backup(c.maxBackups));
        Shift(all, Lines(Front(writes)), line, gone, kept, oldest, ReadBack(files, c.maxBackups - 1));
      }
    }
  }

  // ---------- Age ----------

  predicate NoneAfter(writes: seq<Write>, now: int) {
    forall i :: 0 <= i < |writes| ==> writes[i].at <= now
  }

  predicate TimeOrdered(writes: seq<Write>) {
    writes == [] || (TimeOrdered(Front(writes)) && NoneAfter(Front(writes), Last(writes).at))
  }

  /** What is still in the log of what it held when it was opened. */
  function Inherited(c: Config, s: State, writes: seq<Write>): seq<Line> {
    if HasRotated(c, s, writes) then [] else Read(s.files, Current)
  }

  /** How many of the run's last lines the log holds besides. */
  function Recent(c: Config, s: State, writes: seq<Write>): int {
    |Read(After(c, s, writes).files, Current)| - |Inherited(c, s, writes)|
  }

  /** The last n lines, and one more. */
  lemma TailGrows(writes: seq<Write>, n: nat)
    requires n < |writes|
    ensures Lines(writes[|writes| - 1 - n..]) == Lines(Front(writes)[|writes| - 1 - n..]) + [Last(writes).line]
  {
    var tail := writes[|writes| - 1 - n..];
    assert Front(tail) == Front(writes)[|writes| - 1 - n..] && Last(tail) == Last(writes);
  }

  /** One write that does not rotate the log. */
  lemma KeptLog(c: Config, s: State, writes: seq<Write>)
    requires writes != [] && !Rotates(c, s, writes)
    ensures Inherited(c, s, writes) == Inherited(c, s, Front(writes))
    ensures After(c, s, writes).createdAt == After(c, s, Front(writes)).createdAt
    ensures Read(After(c, s, writes).files, Current) ==
            Read(After(c, s, Front(writes)).files, Current) + [Last(writes).line]
    ensures Recent(c, s, writes) == Recent(c, s, Front(writes)) + 1
  {}

  lemma NewLog(c: Config, s: State, writes: seq<Write>)
    requires writes != [] && Rotates(c, s, writes)
    ensures Inherited(c, s, writes) == [] == Read(After(c, s, writes).files, Current) && Recent(c, s, writes) == 0
    ensures After(c, s, writes).createdAt == Last(writes).at
  {}

  ghost predicate HoldsRecent(c: Config, s: State, writes: seq<Write>) {
    var n := Recent(c, s, writes);
    && 0 <= n <= |writes|
    && Read(After(c, s, writes).files, Current) == Inherited(c, s, writes) + Lines(writes[|writes| - n..])
  }

  lemma NoneRecent(c: Config, s: State, writes: seq<Write>)
    requires writes == [] || Rotates(c, s, writes)
    ensures HoldsRecent(c, s, writes)
  {
    if writes != [] {
      NewLog(c, s, writes);
    }
    var log := Read(After(c, s, writes).files, Current);
    assert log == Inherited(c, s, writes) && Recent(c, s, writes) == 0;
    assert writes[|writes|..] == [] && log + [] == log;
  }

  lemma Append(log: seq<Line>, inherited: seq<Line>, tail: seq<Line>, longer: seq<Line>, line: Line)
    requires log == inherited + tail && longer == tail + [line]
    ensures log + [line] == inherited + longer
  {}

  lemma RecentGrows(c: Config, s: State, writes: seq<Write>)
    requires writes != [] && !Rotates(c, s, writes) && HoldsRecent(c, s, Front(writes))
    ensures HoldsRecent(c, s, writes)
  {
    var before, n := Front(writes), Recent(c, s, Front(writes));
    KeptLog(c, s, writes);
    TailGrows(writes, n);
    Append(Read(After(c, s, before).files, Current), Inherited(c, s, before), Lines(before[|before| - n..]),
           Lines(writes[|writes| - 1 - n..]), Last(writes).line);
  }

  /** The log holds what it inherited and the run's last lines. */
  lemma {:induction false} LogIsRecent(c: Config, s: State, writes: seq<Write>)
    ensures HoldsRecent(c, s, writes)
  {
    if writes == [] || Rotates(c, s, writes) {
      NoneRecent(c, s, writes);
    } else {
      LogIsRecent(c, s, Front(writes));
      RecentGrows(c, s, writes);
    }
  }

  /** Those lines were written since the log was created. */
  lemma {:induction false} RecentIsNew(c: Config, s: State, writes: seq<Write>, i: nat)
    requires TimeOrdered(writes) && forall i :: 0 <= i < |writes| ==> s.createdAt <= writes[i].at
    requires HoldsRecent(c, s, writes) && |writes| - Recent(c, s, writes) <= i < |writes|
    ensures After(c, s, writes).createdAt <= writes[i].at
  {
    CreatedBefore(c, s, Front(writes), Last(writes).at);
    if Rotates(c, s, writes) {
      NewLog(c, s, writes);
    } else {
      KeptLog(c, s, writes);
      if i < |writes| - 1 {
        LogIsRecent(c, s, Front(writes));
        RecentIsNew(c, s, Front(writes), i);
      }
    }
  }

  lemma {:induction false} CreatedBefore(c: Config, s: State, writes: seq<Write>, now: int)
    requires NoneAfter(writes, now) && s.createdAt <= now
    ensures After(c, s, writes).createdAt <= now
  {
    if writes != [] {
      assert Last(writes).at <= now;
      CreatedBefore(c, s, Front(writes), now);
    }
  }

  /** With an age limit, every line of the run in the log was written no longer than the limit
      before the last write; with a negative one there is none. */
  lemma {:induction false} AgeBound(c: Config, s: State, writes: seq<Write>)
    requires c.maxAgeHours != 0 && TimeOrdered(writes)
    requires forall i :: 0 <= i < |writes| ==> s.createdAt <= writes[i].at
    ensures var n := Recent(c, s, writes);
            && 0 <= n <= |writes|
            && Read(After(c, s, writes).files, Current) ==
               Inherited(c, s, writes) + Lines(writes[|writes| - n..])
            && forall i :: |writes| - n <= i < |writes| ==>
                 Last(writes).at - writes[i].at <= c.maxAgeHours * HOUR
  {
    LogIsRecent(c, s, writes);
    if writes != [] {
      forall i | |writes| - Recent(c, s, writes) <= i < |writes|
        ensures Last(writes).at - writes[i].at <= c.maxAgeHours * HOUR
      {
        RecentIsNew(c, s, writes, i);
      }
    }
  }

  // ---------- Sizes ----------

  lemma SizeAppend(lines: seq<Line>, line: Line)
    ensures Size(lines + [line]) == Size(lines) + |line|
  {
    FrontLast(lines, line);
  }

  predicate HasRotated(c: Config, s: State, writes: seq<Write>) {
    writes != [] && (HasRotated(c, s, Front(writes)) || Rotates(c, s, writes))
  }

  /** bytesWritten is the size of the log, less what the log held when it was opened, until
      the first rotation. So it is the size throughout iff the log was opened empty. */
  lemma {:induction false} BytesWrittenIs(c: Config, s: State, writes: seq<Write>)
    requires s.bytesWritten == 0
    ensures var t := After(c, s, writes);
            Size(Read(t.files, Current)) ==
            t.bytesWritten + if HasRotated(c, s, writes) then 0 else Size(Read(s.files, Current))
  {
    if writes != [] {
      BytesWrittenIs(c, s, Front(writes));
      SizeAppend(Read(After(c, s, Front(writes)).files, Current), Last(writes).line);
    }
  }

  /** With a size limit the count is below it after every write. */
  lemma {:induction false} BelowLimit(c: Config, s: State, writes: seq<Write>)
    requires c.maxSizeBytes > 0 && s.bytesWritten == 0
    ensures After(c, s, writes).bytesWritten < c.maxSizeBytes
  {
    if writes != [] {
      BelowLimit(c, s, Front(writes));
    }
  }

  /** A backup the size rule makes reaches the limit by its last line and not before. */
  predicate FilledBySize(limit: nat, lines: seq<Line>) {
    lines != [] && limit <= Size(lines) < limit + |Last(lines)|
  }

  /** With a log that starts empty: the count is the size, and every rotation the size rule
      asks for makes a backup that holds at least the limit and less than the limit plus its
      last line. */
  lemma {:induction false} SizeRule(c: Config, s: State, writes: seq<Write>, line: Line, now: int)
    requires c.maxBackups >= 1 && c.maxSizeBytes > 0 && s.bytesWritten == 0 && Read(s.files, Current) == []
    ensures var t := After(c, s, writes);
            && t.bytesWritten == Size(Read(t.files, Current)) < c.maxSizeBytes
            && (t.bytesWritten + |line| >= c.maxSizeBytes ==>
                  FilledBySize(c.maxSizeBytes, Read(Logged(c, t, line, now).files, Backup(1))))
  {
    var t := After(c, s, writes);
    BytesWrittenIs(c, s, writes);
    BelowLimit(c, s, writes);
    var lines := Read(t.files, Current);
    SizeAppend(lines, line);
    FrontLast(lines, line);
    RotationMovesEach(Appended(t, line).files, c.maxBackups, Backup(1));
  }

  // ---------- Where each backup comes from ----------

  /** The age rule asks for a rotation. */
  predicate AgedOut(c: Config, createdAt: int, now: int) {
    c.maxAgeHours != 0 && now > createdAt + c.maxAgeHours * HOUR
  }

  function Rotations(c: Config, s: State, writes: seq<Write>): nat {
    if writes == [] then 0
    else Rotations(c, s, Front(writes)) + if Rotates(c, s, writes) then 1 else 0
  }

  /** What the log holds just after a line is appended, before any rotation. */
  function LogAt(c: Config, s: State, writes: seq<Write>): seq<Line>
    requires writes != []
  {
    Read(Appended(After(c, s, Front(writes)), Last(writes).line).files, Current)
  }

  /** The log a rotation puts away was filled by size or made old by age. */
  predicate MadeBy(c: Config, s: State, writes: seq<Write>)
    requires writes != []
  {
    || (c.maxSizeBytes > 0 && FilledBySize(c.maxSizeBytes, LogAt(c, s, writes)))
    || AgedOut(c, After(c, s, Front(writes)).createdAt, Last(writes).at)
  }

  lemma {:induction false} RotationIsMade(c: Config, s: State, writes: seq<Write>)
    requires writes != [] && Rotates(c, s, writes)
    requires c.maxBackups >= 1 && s.bytesWritten == 0 && Read(s.files, Current) == []
    ensures MadeBy(c, s, writes)
  {
    if c.maxSizeBytes > 0 {
      SizeRule(c, s, Front(writes), Last(writes).line, Last(writes).at);
      RotationMovesEach(Appended(After(c, s, Front(writes)), Last(writes).line).files, c.maxBackups, Backup(1));
    }
  }

  /** In every run from an empty directory and with any limits, backup n is the whole log that the
      n-th last rotation put away, and that log was filled by size or made old by age. */
  lemma {:induction false} BackupIsOneLog(c: Config, createdAt: int, writes: seq<Write>, n: nat) returns (k: nat)
    requires c.maxBackups >= 1
    requires Backup(n) in After(c, State(map[Current := []], 0, createdAt), writes).files
    ensures var s := State(map[Current := []], 0, createdAt);
            && 1 <= n <= c.maxBackups && 1 <= k <= |writes| && Rotates(c, s, writes[..k])
            && Rotations(c, s, writes) == Rotations(c, s, writes[..k]) + n - 1
            && After(c, s, writes).files[Backup(n)] == LogAt(c, s, writes[..k])
            && MadeBy(c, s, writes[..k])
  {
    var s := State(map[Current := []], 0, createdAt);
    assert writes != [];
    var files := Appended(After(c, s, Front(writes)), Last(writes).line).files;
    RotationMovesEach(files, c.maxBackups, Backup(n));
    if Rotates(c, s, writes) && n == 1 {
      k := |writes|;
      assert writes[..k] == writes;
      RotationIsMade(c, s, writes);
    } else {
      var m := if Rotates(c, s, writes) && 1 < n <= c.maxBackups then n - 1 else n;
      k := BackupIsOneLog(c, createdAt, Front(writes), m);
      assert Front(writes)[..k] == writes[..k];
    }
  }

  /** So without an age limit every backup was filled by size. */
  lemma AllBackupsFilled(c: Config, createdAt: int, writes: seq<Write>, n: nat)
    requires c.maxBackups >= 1 && c.maxSizeBytes > 0 && c.maxAgeHours == 0
    requires Backup(n) in After(c, State(map[Current := []], 0, createdAt), writes).files
    ensures FilledBySize(c.maxSizeBytes,
                         After(c, State(map[Current := []], 0, createdAt), writes).files[Backup(n)])
  {
    var k := BackupIsOneLog(c, createdAt, writes, n);
  }
}
