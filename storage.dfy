/** The retention rotator: a pass over the log directory that deletes the daily
    log files dated before a cutoff, now minus the retention window, and leaves
    everything else alone. */
module Storage {
  import opened Base
  import opened Clock
  import Logging

  /** One entry of a directory listing. */
  datatype DirEntry = DirEntry(name: string, isDir: bool)

  /** The pattern ^metrics-(\d{4}-\d{2}-\d{2})\.ndjson$, matched against the
      whole name; \d is an ASCII digit. */
  predicate MatchesPattern(name: string) {
    |name| == 25 && name[..8] == "metrics-" && DateShaped(name[8..18]) && name[18..] == ".ndjson"
  }

  /** The group the pattern captures: the date part of the name. */
  function DateOfName(name: string): string
    requires MatchesPattern(name)
  {
    name[8..18]
  }

  /** The names the pattern accepts are exactly the logger's file names for
      dates of the "2006-01-02" shape, and the captured group is that date. */
  lemma PatternIsLogName(date: string)
    ensures MatchesPattern(Logging.LogBaseName(date)) <==> DateShaped(date)
    ensures DateShaped(date) ==> DateOfName(Logging.LogBaseName(date)) == date
  {
  }

  /** Every matching name is the log file name of its captured date. */
  lemma MatchingNameIsLogName(name: string)
    requires MatchesPattern(name)
    ensures name == Logging.LogBaseName(DateOfName(name))
  {
    assert name == name[..8] + name[8..18] + name[18..];
  }

  /** The day a directory entry is dated: none for a directory, a name outside
      the pattern, or a captured date that does not exist. */
  function FileDay(e: DirEntry): Option<int> {
    if e.isDir || !MatchesPattern(e.name) then None else ParseDate(DateOfName(e.name))
  }

  /** time.Now().UTC().AddDate(0, 0, -retentionDays): the same time of day,
      retentionDays days earlier (UTC has no daylight saving shifts). */
  function Cutoff(now: int, retentionDays: int): int {
    now - retentionDays * NanosPerDay
  }

  /** A pass at this cutoff deletes the entry: it is a dated log file whose date,
      taken as midnight UTC, lies strictly before the cutoff. */
  predicate Expired(e: DirEntry, cutoff: int) {
    FileDay(e).Some? && Midnight(FileDay(e).value) < cutoff
  }

  /** An expired entry whose removal succeeds (os.Remove's error is ignored, so
      a failing removal just leaves the file). */
  predicate Deleted(e: DirEntry, cutoff: int, failing: set<string>) {
    Expired(e, cutoff) && e.name !in failing
  }

  /** The entries a pass leaves, in listing order. */
  function Survivors(es: seq<DirEntry>, cutoff: int, failing: set<string>): seq<DirEntry> {
    if es == [] then []
    else
      var last := es[|es| - 1];
      Survivors(es[..|es| - 1], cutoff, failing) + (if Deleted(last, cutoff, failing) then [] else [last])
  }

  /** An entry survives a pass iff it was listed and is not deleted. */
  lemma {:induction false} SurvivorsMembership(es: seq<DirEntry>, cutoff: int, failing: set<string>, e: DirEntry)
    ensures e in Survivors(es, cutoff, failing) <==> e in es && !Deleted(e, cutoff, failing)
  {
    if es != [] {
      var init := es[..|es| - 1];
      SurvivorsMembership(init, cutoff, failing, e);
      assert es == init + [es[|es| - 1]];
    }
  }

  /** Each survivor is an entry of the listing. */
  lemma {:induction false} SurvivorIsListed(es: seq<DirEntry>, cutoff: int, failing: set<string>, k: int) returns (j: int)
    requires 0 <= k < |Survivors(es, cutoff, failing)|
    ensures 0 <= j < |es| && es[j] == Survivors(es, cutoff, failing)[k]
  {
    var init := es[..|es| - 1];
    var s := Survivors(init, cutoff, failing);
    if k < |s| {
      j := SurvivorIsListed(init, cutoff, failing, k);
    } else {
      j := |es| - 1;
    }
  }

  /** A pass keeps the listing order: what survives is a subsequence. */
  lemma {:induction false} SurvivorsSubsequence(es: seq<DirEntry>, cutoff: int, failing: set<string>)
    ensures |Survivors(es, cutoff, failing)| <= |es|
    ensures Survivors(es, cutoff, failing) == es <==> forall k :: 0 <= k < |es| ==> !Deleted(es[k], cutoff, failing)
  {
    if es != [] {
      var init := es[..|es| - 1];
      SurvivorsSubsequence(init, cutoff, failing);
      if Survivors(es, cutoff, failing) == es {
        assert Survivors(init, cutoff, failing) == init && !Deleted(es[|es| - 1], cutoff, failing);
        forall k | 0 <= k < |es|
          ensures !Deleted(es[k], cutoff, failing)
        {
          if k < |es| - 1 {
            assert es[k] == init[k];
          }
        }
      }
      if forall k :: 0 <= k < |es| ==> !Deleted(es[k], cutoff, failing) {
        assert forall k :: 0 <= k < |init| ==> init[k] == es[k];
        assert es == init + [es[|es| - 1]];
      }
    }
  }

  /** A pass keeps the listing order: the survivors are the entries at the
      increasing positions of exactly the entries that are not deleted. */
  lemma {:induction false} SurvivorsInOrder(es: seq<DirEntry>, cutoff: int, failing: set<string>) returns (idx: seq<int>)
    ensures |idx| == |Survivors(es, cutoff, failing)|
    ensures forall k :: 0 <= k < |idx| ==> 0 <= idx[k] < |es| && es[idx[k]] == Survivors(es, cutoff, failing)[k]
    ensures forall k, l :: 0 <= k < l < |idx| ==> idx[k] < idx[l]
    ensures forall j :: 0 <= j < |es| ==> (j in idx <==> !Deleted(es[j], cutoff, failing))
  {
    if es == [] {
      idx := [];
    } else {
      var n := |es| - 1;
      var init := es[..n];
      var s := Survivors(init, cutoff, failing);
      var i0 := SurvivorsInOrder(init, cutoff, failing);
      assert forall j :: 0 <= j < n ==> init[j] == es[j];
      if Deleted(es[n], cutoff, failing) {
        idx := i0;
        assert Survivors(es, cutoff, failing) == s;
      } else {
        idx := i0 + [n];
        assert Survivors(es, cutoff, failing) == s + [es[n]];
        assert forall k :: 0 <= k < |i0| ==> idx[k] == i0[k];
      }
    }
  }

  /** A second pass with the same clock and the same failures removes nothing
      further. */
  lemma SurvivorsIdempotent(es: seq<DirEntry>, cutoff: int, failing: set<string>)
    ensures Survivors(Survivors(es, cutoff, failing), cutoff, failing) == Survivors(es, cutoff, failing)
  {
    var s := Survivors(es, cutoff, failing);
    forall k | 0 <= k < |s|
      ensures !Deleted(s[k], cutoff, failing)
    {
      SurvivorsMembership(es, cutoff, failing, s[k]);
    }
    SurvivorsSubsequence(s, cutoff, failing);
  }

  /** Directories, names outside the pattern and names with a date that does
      not exist are never touched. */
  lemma UndatedEntriesKept(es: seq<DirEntry>, cutoff: int, failing: set<string>, e: DirEntry)
    requires e in es
    requires e.isDir || !MatchesPattern(e.name) || ParseDate(DateOfName(e.name)).None?
    ensures e in Survivors(es, cutoff, failing)
  {
    SurvivorsMembership(es, cutoff, failing, e);
  }

  /** A file named for month 13 matches the pattern but is skipped. */
  lemma MonthThirteenSkipped(cutoff: int)
    ensures MatchesPattern("metrics-2024-13-01.ndjson")
    ensures !Expired(DirEntry("metrics-2024-13-01.ndjson", false), cutoff)
  {
    var name := "metrics-2024-13-01.ndjson";
    assert name[8..18] == "2024-13-01";
    assert name[..8] == "metrics-" && name[18..] == ".ndjson";
    ParseRejectsMissingDates();
  }

  /** The age rule: against a clock reading now, a file dated day, which is
      DayOf(now) - day days old, is deleted iff it is older than the retention
      window, or exactly as old and now is not midnight (the cutoff keeps now's
      time of day). */
  lemma AgeRule(now: int, retentionDays: int, day: int)
    ensures var age := DayOf(now) - day;
            Midnight(day) < Cutoff(now, retentionDays)
            <==> age > retentionDays || (age == retentionDays && now % NanosPerDay != 0)
  {
    var age := DayOf(now) - day;
    DayBounds(now);
    assert now == DayOf(now) * NanosPerDay + now % NanosPerDay;
    calc {
      Midnight(day) < Cutoff(now, retentionDays);
    <==>
      (DayOf(now) - age) * NanosPerDay < now - retentionDays * NanosPerDay;
    <==>
      (retentionDays - age) * NanosPerDay < now % NanosPerDay;
    }
    if age < retentionDays {
      assert (retentionDays - age) * NanosPerDay >= NanosPerDay;
    } else if age > retentionDays {
      assert (retentionDays - age) * NanosPerDay <= -NanosPerDay;
    }
  }

  /** The log file of a day in the years 0 to 9999 is dated that day. */
  lemma LogFileDay(day: int)
    requires 0 <= CivilFromDays(day).0 <= 9999
    ensures FileDay(DirEntry(Logging.LogBaseName(DateOfDay(day)), false)) == Some(day)
  {
    ParseDateOfDay(day);
    PatternIsLogName(DateOfDay(day));
  }

  /** The log file of a day is deleted iff the age rule says so, its age being
      the number of days from its day to now's. */
  lemma AgedLogFile(day: int, now: int, retentionDays: int)
    requires 0 <= CivilFromDays(day).0 <= 9999
    ensures var e := DirEntry(Logging.LogBaseName(DateOfDay(day)), false);
            var age := DayOf(now) - day;
            Expired(e, Cutoff(now, retentionDays))
            <==> age > retentionDays || (age == retentionDays && now % NanosPerDay != 0)
  {
    var e := DirEntry(Logging.LogBaseName(DateOfDay(day)), false);
    LogFileDay(day);
    ExpiredByAge(e, now, retentionDays, day);
  }

  /** The age rule for any entry dated day. */
  lemma ExpiredByAge(e: DirEntry, now: int, retentionDays: int, day: int)
    requires FileDay(e) == Some(day)
    ensures var age := DayOf(now) - day;
            Expired(e, Cutoff(now, retentionDays))
            <==> age > retentionDays || (age == retentionDays && now % NanosPerDay != 0)
  {
    AgeRule(now, retentionDays, day);
  }

  /** With a retention of at least one day, a pass never deletes the file the
      logger writes at the same clock reading. */
  lemma TodaysLogFileKept(es: seq<DirEntry>, now: int, retentionDays: int, failing: set<string>)
    requires retentionDays >= 1
    requires 0 <= CivilFromDays(DayOf(now)).0 <= 9999
    ensures DirEntry(Logging.LogBaseName(UtcDate(now)), false) in es
            ==> DirEntry(Logging.LogBaseName(UtcDate(now)), false) in Survivors(es, Cutoff(now, retentionDays), failing)
  {
    var e := DirEntry(Logging.LogBaseName(UtcDate(now)), false);
    AgedLogFile(DayOf(now), now, retentionDays);
    SurvivorsMembership(es, Cutoff(now, retentionDays), failing, e);
  }

  /** No two entries of a directory share a name. */
  predicate DistinctNames(es: seq<DirEntry>) {
    forall i, j :: 0 <= i < j < |es| ==> es[i].name != es[j].name
  }

  /** A listing without the entry of a name. */
  function Without(es: seq<DirEntry>, name: string): seq<DirEntry> {
    if es == [] then [] else (if es[0].name == name then [] else [es[0]]) + Without(es[1..], name)
  }

  /** Exactly the entries of other names remain. */
  lemma {:induction false} WithoutMembership(es: seq<DirEntry>, name: string, e: DirEntry)
    ensures e in Without(es, name) <==> e in es && e.name != name
  {
    if es != [] {
      WithoutMembership(es[1..], name, e);
      assert es == [es[0]] + es[1..];
    }
  }

  lemma {:induction false} WithoutAppend(a: seq<DirEntry>, b: seq<DirEntry>, name: string)
    ensures Without(a + b, name) == Without(a, name) + Without(b, name)
  {
    if a != [] {
      var head := if a[0].name == name then [] else [a[0]];
      WithoutAppend(a[1..], b, name);
      assert a + b == [a[0]] + (a[1..] + b);
      assert Without(a + b, name) == head + Without(a[1..] + b, name);
      assert Without(a, name) == head + Without(a[1..], name);
    } else {
      assert a + b == b;
    }
  }

  lemma {:induction false} WithoutAbsent(es: seq<DirEntry>, name: string)
    requires forall k :: 0 <= k < |es| ==> es[k].name != name
    ensures Without(es, name) == es
  {
    if es != [] {
      WithoutAbsent(es[1..], name);
    }
  }

  lemma {:induction false} WithoutDistinct(es: seq<DirEntry>, name: string)
    requires DistinctNames(es)
    ensures DistinctNames(Without(es, name))
  {
    if es != [] {
      var rest := Without(es[1..], name);
      WithoutDistinct(es[1..], name);
      forall k | 0 <= k < |rest|
        ensures rest[k].name != es[0].name
      {
        WithoutMembership(es[1..], name, rest[k]);
        assert rest[k] in es[1..];
      }
    }
  }

  /** Survivors of a listing with distinct names have distinct names. */
  lemma {:induction false} SurvivorsDistinct(es: seq<DirEntry>, cutoff: int, failing: set<string>)
    requires DistinctNames(es)
    ensures DistinctNames(Survivors(es, cutoff, failing))
  {
    if es != [] {
      var init := es[..|es| - 1];
      var last := es[|es| - 1];
      var s := Survivors(init, cutoff, failing);
      SurvivorsDistinct(init, cutoff, failing);
      forall k | 0 <= k < |s|
        ensures s[k].name != last.name
      {
        SurvivorsMembership(init, cutoff, failing, s[k]);
      }
    }
  }

  /** One entry of a pass: the first i entries are done and what remains is
      the directory as it was; handling entry i keeps that shape. */
  lemma PassStep(es: seq<DirEntry>, i: int, cutoff: int, failing: set<string>)
    requires DistinctNames(es) && 0 <= i < |es|
    ensures Survivors(es[..i + 1], cutoff, failing) + es[i + 1..]
            == if Deleted(es[i], cutoff, failing) then Without(Survivors(es[..i], cutoff, failing) + es[i..], es[i].name)
               else Survivors(es[..i], cutoff, failing) + es[i..]
  {
    assert es[..i + 1][..i] == es[..i];
    assert es[i..] == [es[i]] + es[i + 1..];
    if Deleted(es[i], cutoff, failing) {
      var done := Survivors(es[..i], cutoff, failing);
      DoneLacksName(es, i, done, cutoff, failing);
      var rest := es[i + 1..];
      forall k | 0 <= k < |rest|
        ensures rest[k].name != es[i].name
      {
        assert rest[k] == es[i + 1 + k];
      }
      RemoveStep(done, es[i], rest);
    }
  }

  /** Removing a name carried by neither the entries before it nor those after
      it drops exactly its entry. */
  lemma RemoveStep(done: seq<DirEntry>, entry: DirEntry, rest: seq<DirEntry>)
    requires forall k :: 0 <= k < |done| ==> done[k].name != entry.name
    requires forall k :: 0 <= k < |rest| ==> rest[k].name != entry.name
    ensures Without(done + ([entry] + rest), entry.name) == done + rest
  {
    var name := entry.name;
    WithoutAbsent(done, name);
    WithoutAbsent(rest, name);
    WithoutAppend([entry], rest, name);
    assert [entry][1..] == [];
    assert Without([entry], name) == [];
    assert Without([entry] + rest, name) == rest;
    WithoutAppend(done, [entry] + rest, name);
  }

  /** Mid-pass, no entry already handled carries the name of entry i. */
  lemma DoneLacksName(es: seq<DirEntry>, i: int, done: seq<DirEntry>, cutoff: int, failing: set<string>)
    requires DistinctNames(es) && 0 <= i < |es|
    requires done == Survivors(es[..i], cutoff, failing)
    ensures forall k :: 0 <= k < |done| ==> done[k].name != es[i].name
  {
    forall k | 0 <= k < |done|
      ensures done[k].name != es[i].name
    {
      var j := SurvivorIsListed(es[..i], cutoff, failing, k);
      assert es[..i][j] == es[j];
    }
  }

  /** The log directory: its entries in listing order. */
  class Directory {
    var entries: seq<DirEntry>

    predicate Valid()
      reads this
    {
      DistinctNames(entries)
    }

    constructor (entries: seq<DirEntry>)
      requires DistinctNames(entries)
      ensures this.entries == entries && Valid()
    {
      this.entries := entries;
    }

    /** os.ReadDir: the entries, or an error when the directory cannot be read. */
    method ReadDir(readable: bool) returns (listing: Option<seq<DirEntry>>)
      requires Valid()
      ensures readable ==> listing == Some(entries)
      ensures !readable ==> listing.None?
    {
      if readable {
        listing := Some(entries);
      } else {
        listing := None;
      }
    }

    /** os.Remove: the entry of the name goes, unless the removal fails. */
    method Remove(name: string, ok: bool)
      requires Valid()
      modifies this
      ensures Valid()
      ensures entries == if ok then Without(old(entries), name) else old(entries)
    {
      if ok {
        WithoutDistinct(entries, name);
        entries := Without(entries, name);
      }
    }
  }

  class Rotator {
    const logDir: string
    const retentionDays: int
    const dir: Directory

    constructor (logDir: string, retentionDays: int, dir: Directory)
      ensures this.logDir == logDir && this.retentionDays == retentionDays && this.dir == dir
    {
      this.logDir := logDir;
      this.retentionDays := retentionDays;
      this.dir := dir;
    }

    /** One retention pass at clock reading now: a listing error leaves the
        directory as it is; otherwise exactly the expired files go, except
        those whose removal fails. */
    method Rotate(now: int, readable: bool, failing: set<string>)
      requires dir.Valid()
      modifies dir
      ensures dir.Valid()
      ensures dir.entries == if readable then Survivors(old(dir.entries), Cutoff(now, retentionDays), failing)
                             else old(dir.entries)
    {
      var listing := dir.ReadDir(readable);
      if listing.None? {
        return;
      }
      var es := listing.value;
      var cutoff := Cutoff(now, retentionDays);
      var i := 0;
      while i < |es|
        invariant 0 <= i <= |es|
        invariant dir.entries == Survivors(es[..i], cutoff, failing) + es[i..]
        invariant DistinctNames(es) && dir.Valid()
      {
        var entry := es[i];
        PassStep(es, i, cutoff, failing);
        if Expired(entry, cutoff) {
          dir.Remove(entry.name, entry.name !in failing);
        }
        i := i + 1;
      }
      assert es[..i] == es && es[i..] == [];
      assert dir.entries == Survivors(es, cutoff, failing);
    }
  }
}
