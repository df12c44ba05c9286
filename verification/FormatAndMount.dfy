/** Mounting a disk, and formatting it first when it carries nothing. Every command may end
    any way it likes; the log keeps what was run and how it ended. */
module FormatAndMount {
  import opened Common
  import opened Strings

  const READ_ONLY := "ro"
  const PARTITIONS := "unknown data, probably partitions"
  const FSCK_ERRORS_UNCORRECTED := 4
  const NOTHING_FOUND := 2

  /** How a command ended: in order, with an exit status, or some other way. */
  datatype Run = Success(output: string) | Exit(status: int) | Unknown

  datatype Event =
    | Fsck(disk: string, run: Run)
    | Mount(disk: string, target: string, fstype: string, options: seq<string>, ok: bool)
    | Blkid(disk: string, run: Run)
    | Mkfs(fstype: string, args: seq<string>, ok: bool)

  class Host {
    var log: seq<Event>

    method RunFsck(disk: string) returns (run: Run)
      modifies this
      ensures log == old(log) + [Fsck(disk, run)]
    {
      run := *;
      log := log + [Fsck(disk, run)];
    }

    method RunMount(disk: string, target: string, fstype: string, options: seq<string>) returns (ok: bool)
      modifies this
      ensures log == old(log) + [Mount(disk, target, fstype, options, ok)]
    {
      ok := *;
      log := log + [Mount(disk, target, fstype, options, ok)];
    }

    method RunBlkid(disk: string) returns (run: Run)
      modifies this
      ensures log == old(log) + [Blkid(disk, run)]
    {
      run := *;
      log := log + [Blkid(disk, run)];
    }

    method RunMkfs(fstype: string, args: seq<string>) returns (ok: bool)
      modifies this
      ensures log == old(log) + [Mkfs(fstype, args, ok)]
    {
      ok := *;
      log := log + [Mkfs(fstype, args, ok)];
    }
  }

  // ---- what blkid's output says ----

  /** The last line that starts with the key and "=" goes on with `v`; without such a line
      `v` is empty. */
  ghost predicate Tells(lines: seq<string>, key: string, v: string) {
    || (v == "" && forall i :: 0 <= i < |lines| ==> !(key + "=" <= lines[i]))
    || (exists i :: 0 <= i < |lines| && lines[i] == key + "=" + v && forall j :: i < j < |lines| ==> !(key + "=" <= lines[j]))
  }

  /** Every line is empty or has exactly one "=". */
  ghost predicate WellFormed(lines: seq<string>) {
    forall i :: 0 <= i < |lines| && lines[i] != "" ==> multiset(lines[i])['='] == 1
  }

  /** Blkid found neither a file system nor a partition table. */
  ghost predicate Unformatted(run: Run) {
    || (run.Exit? && run.status == 2)
    || (run.Success? && var lines := Split(run.output, '\n'); WellFormed(lines) && Tells(lines, "TYPE", "") && Tells(lines, "PTTYPE", ""))
  }

  lemma {:induction false} SplitCount(s: string, d: char)
    ensures |Split(s, d)| == multiset(s)[d] + 1
  {
    if s != "" {
      SplitCount(s[1..], d);
      assert s == [s[0]] + s[1..];
    }
  }

  /** The key of a line is what stands before its first "=". */
  lemma KeyOf(line: string, a: string, b: string, key: string)
    requires line == a + "=" + b && '=' !in a && '=' !in key
    ensures key + "=" <= line <==> a == key
  {
    if key + "=" <= line {
      var k := key + "=";
      assert line[|a|] == '=' && line[|key|] == k[|key|] == '=';
      assert |a| == |key|;
      assert a == line[..|a|] && key == k[..|key|] == line[..|key|];
    }
  }

  lemma TellsOn(lines: seq<string>, line: string, key: string, v: string, v': string)
    requires Tells(lines, key, v)
    requires if key + "=" <= line then line == key + "=" + v' else v' == v
    ensures Tells(lines + [line], key, v')
  {
    var all := lines + [line];
    if key + "=" <= line {
      assert all[|lines|] == key + "=" + v';
    } else if i :| 0 <= i < |lines| && lines[i] == key + "=" + v && forall j :: i < j < |lines| ==> !(key + "=" <= lines[j]) {
      assert all[i] == key + "=" + v;
    }
  }

  /** What the output says is determined by it. */
  lemma TellsOnce(lines: seq<string>, key: string, v: string, v': string)
    requires Tells(lines, key, v) && Tells(lines, key, v')
    ensures v == v'
  {
    if i :| 0 <= i < |lines| && key + "=" <= lines[i] {
      var a :| 0 <= a < |lines| && lines[a] == key + "=" + v && forall j :: a < j < |lines| ==> !(key + "=" <= lines[j]);
      var b :| 0 <= b < |lines| && lines[b] == key + "=" + v' && forall j :: b < j < |lines| ==> !(key + "=" <= lines[j]);
      assert a == b;
      assert v == lines[a][|key| + 1..] == v';
    }
  }

  // ---- GetDiskFormat ----

  /** What the parsed values mean for the caller. */
  ghost predicate Verdict(run: Run, r: Option<string>) {
    match run
    case Unknown => r == None
    case Exit(status) => r == if status == NOTHING_FOUND then Some("") else None
    case Success(output) =>
      var lines := Split(output, '\n');
      (r.None? <==> !WellFormed(lines))
      && (r.Some? ==> exists fstype, pttype :: Tells(lines, "TYPE", fstype) && Tells(lines, "PTTYPE", pttype)
                                              && r.value == if pttype != "" then PARTITIONS else fstype)
  }

  /** An empty answer means an unformatted disk, and the other way round. */
  lemma EmptyIsUnformatted(run: Run, r: Option<string>)
    requires Verdict(run, r)
    ensures r == Some("") <==> Unformatted(run)
  {
    if run.Success? && r.Some? {
      var lines := Split(run.output, '\n');
      var fstype, pttype :| Tells(lines, "TYPE", fstype) && Tells(lines, "PTTYPE", pttype)
                            && r.value == if pttype != "" then PARTITIONS else fstype;
      if Tells(lines, "PTTYPE", "") {
        TellsOnce(lines, "PTTYPE", pttype, "");
      }
      if Tells(lines, "TYPE", "") {
        TellsOnce(lines, "TYPE", fstype, "");
      }
    }
  }

  lemma LineSplits(line: string)
    requires |Split(line, '=')| == 2
    ensures line == Split(line, '=')[0] + "=" + Split(line, '=')[1]
  {
    JoinSplit(line, '=');
  }

  /** What one more line of two parts adds to what is known about a key. */
  lemma LineTells(lines: seq<string>, line: string, key: string, v: string)
    requires Tells(lines, key, v) && '=' !in key && |Split(line, '=')| == 2
    ensures Tells(lines + [line], key, if Split(line, '=')[0] == key then Split(line, '=')[1] else v)
  {
    hide Tells, Split;
    var cs := Split(line, '=');
    LineSplits(line);
    KeyOf(line, cs[0], cs[1], key);
    TellsOn(lines, line, key, v, if cs[0] == key then cs[1] else v);
  }

  method ParseLines(lines: seq<string>) returns (ok: bool, fstype: string, pttype: string)
    ensures ok <==> WellFormed(lines)
    ensures ok ==> Tells(lines, "TYPE", fstype) && Tells(lines, "PTTYPE", pttype)
  {
    hide Tells, Split;
    fstype, pttype := "", "";
    TellsNothing("TYPE");
    TellsNothing("PTTYPE");
    for i := 0 to |lines|
      invariant WellFormed(lines[..i])
      invariant Tells(lines[..i], "TYPE", fstype) && Tells(lines[..i], "PTTYPE", pttype)
    {
      var line := lines[i];
      assert lines[..i + 1] == lines[..i] + [line];
      if line == "" {
        TellsOn(lines[..i], line, "TYPE", fstype, fstype);
        TellsOn(lines[..i], line, "PTTYPE", pttype, pttype);
        continue;
      }
      var cs := Split(line, '=');
      SplitCount(line, '=');
      if |cs| != 2 {
        return false, fstype, pttype;
      }
      LineTells(lines[..i], line, "TYPE", fstype);
      LineTells(lines[..i], line, "PTTYPE", pttype);
      if cs[0] == "TYPE" {
        fstype := cs[1];
      } else if cs[0] == "PTTYPE" {
        pttype := cs[1];
      }
    }
    assert lines[..|lines|] == lines;
    ok := true;
  }

  lemma TellsNothing(key: string)
    ensures Tells([], key, "")
  {
  }

  method GetDiskFormat(h: Host, disk: string) returns (r: Option<string>)
    modifies h
    ensures |h.log| == |old(h.log)| + 1 && old(h.log) <= h.log
    ensures var e := h.log[|old(h.log)|]; e.Blkid? && e.disk == disk && Verdict(e.run, r)
  {
    hide Tells, Split;
    var run := h.RunBlkid(disk);
    match run
    case Unknown => r := None;
    case Exit(status) => r := if status == NOTHING_FOUND then Some("") else None;
    case Success(output) =>
      var ok, fstype, pttype := ParseLines(Split(output, '\n'));
      r := if !ok then None else if |pttype| > 0 then Some(PARTITIONS) else Some(fstype);
  }

  // ---- formatAndMount ----

  method IsReadOnly(options: seq<string>) returns (r: bool)
    ensures r <==> "ro" in options
  {
    r := false;
    for i := 0 to |options|
      invariant READ_ONLY !in options[..i]
    {
      if options[i] == READ_ONLY {
        return true;
      }
    }
  }

  function FormatType(fstype: string): string {
    if fstype == "" then "ext4" else fstype
  }

  function FormatArgs(disk: string, fstype: string): seq<string> {
    if fstype == "ext4" || fstype == "ext3" then ["-F", "-m0", disk] else [disk]
  }

  ghost predicate Uncorrected(run: Run) {
    run.Exit? && run.status == 4
  }

  /** The disk may be formatted by the event after `e[i + 1]`: the mount failed, nothing was
      found on the disk, and writing is allowed. */
  ghost predicate FormatDue(e: seq<Event>, i: nat, options: seq<string>) {
    i + 1 < |e| && "ro" !in options && e[i].Mount? && !e[i].ok && e[i + 1].Blkid? && Unformatted(e[i + 1].run)
  }

  ghost predicate IsMount(e: Event, disk: string, target: string, fstype: string, options: seq<string>) {
    e.Mount? && e.disk == disk && e.target == target && e.fstype == fstype && e.options == options + ["defaults"]
  }

  ghost predicate IsMkfs(e: Event, disk: string, fstype: string) {
    && e.Mkfs? && e.fstype == (if fstype == "" then "ext4" else fstype)
    && e.args == if fstype == "" || fstype == "ext4" || fstype == "ext3" then ["-F", "-m0", disk] else [disk]
  }

  /** The commands of one call. The check comes first unless the mount is read-only, and
      errors it could not correct end the call. A mount that fails is followed by a look at
      the disk, formatting follows exactly when it is due, and the second mount follows
      exactly when formatting worked. */
  ghost predicate Ran(e: seq<Event>, disk: string, target: string, fstype: string, options: seq<string>) {
    var first := if "ro" in options then 0 else 1;
    && (first == 1 ==> e != [] && e[0].Fsck? && e[0].disk == disk)
    && (|e| > first <==> !(first == 1 && Uncorrected(e[0].run)))
    && (|e| > first ==> IsMount(e[first], disk, target, fstype, options) && (e[first].ok <==> |e| == first + 1))
    && (|e| > first + 1 ==> e[first + 1].Blkid? && e[first + 1].disk == disk)
    && (|e| > first + 2 <==> FormatDue(e, first, options))
    && (|e| > first + 2 ==> IsMkfs(e[first + 2], disk, fstype) && (e[first + 2].ok <==> |e| == first + 4))
    && (|e| > first + 3 ==> |e| == first + 4 && IsMount(e[first + 3], disk, target, if fstype == "" then "ext4" else fstype, options))
  }

  /** Formats exactly when that is due, and reports success exactly when the last thing done
      was a mount that worked. */
  method FormatAndMount(h: Host, disk: string, target: string, fstype: string, options: seq<string>) returns (ok: bool)
    modifies h
    ensures old(h.log) <= h.log && |h.log| > |old(h.log)|
    ensures Ran(h.log[|old(h.log)|..], disk, target, fstype, options)
    ensures ok <==> h.log[|h.log| - 1].Mount? && h.log[|h.log| - 1].ok
  {
    hide Verdict, Unformatted;
    ghost var log0, e := h.log, [];
    var readOnly := IsReadOnly(options);
    var all := options + ["defaults"];
    var go := true;
    if !readOnly {
      var run := h.RunFsck(disk);
      e := [Fsck(disk, run)];
      go := !(run.Exit? && run.status == FSCK_ERRORS_UNCORRECTED);
    }
    assert h.log == log0 + e;
    ok := false;
    if go {
      ok := h.RunMount(disk, target, fstype, all);
      e := e + [Mount(disk, target, fstype, all, ok)];
      assert h.log == log0 + e;
      if !ok {
        ghost var more;
        ok, more := FormatAndRetry(h, disk, target, fstype, all, readOnly);
        e := e + more;
      }
    }
    assert h.log == log0 + e;
    assert h.log[|log0|..] == e;
  }

  /** After a mount that failed: a look at the disk, and if that is due and allowed, mkfs and
      the second mount. */
  method FormatAndRetry(h: Host, disk: string, target: string, fstype: string, all: seq<string>, readOnly: bool)
    returns (ok: bool, ghost more: seq<Event>)
    modifies h
    ensures h.log == old(h.log) + more && 0 < |more| <= 3 && more[0].Blkid? && more[0].disk == disk
    ensures |more| > 1 <==> !readOnly && Unformatted(more[0].run)
    ensures |more| > 1 ==> IsMkfs(more[1], disk, fstype) && (more[1].ok <==> |more| == 3)
    ensures |more| > 2 ==> more[2] == Mount(disk, target, if fstype == "" then "ext4" else fstype, all, ok)
    ensures |more| < 3 ==> !ok
  {
    hide Verdict, Unformatted;
    ok := false;
    var existing := GetDiskFormat(h, disk);
    more := [h.log[|old(h.log)|]];
    assert h.log == old(h.log) + more;
    EmptyIsUnformatted(more[0].run, existing);
    if existing == Some("") && !readOnly {
      var kind := FormatType(fstype);
      var formatted := h.RunMkfs(kind, FormatArgs(disk, kind));
      more := more + [Mkfs(kind, FormatArgs(disk, kind), formatted)];
      assert h.log == old(h.log) + more;
      if formatted {
        ok := h.RunMount(disk, target, kind, all);
        more := more + [Mount(disk, target, kind, all, ok)];
        assert h.log == old(h.log) + more;
      }
    }
  }

  /** Formatting happens at most once, never for a read-only mount, and only right after a
      mount that failed and a look that found nothing on the disk. */
  lemma FormatsOnlyWhenDue(e: seq<Event>, disk: string, target: string, fstype: string, options: seq<string>, i: nat, j: nat)
    requires Ran(e, disk, target, fstype, options) && i < |e| && e[i].Mkfs?
    ensures i >= 2 && FormatDue(e, i - 2, options)
    ensures j < |e| && e[j].Mkfs? ==> j == i
  {
    hide Unformatted;
  }
}
