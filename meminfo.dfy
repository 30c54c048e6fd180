/** The `/proc/meminfo` scan of `get_cpu_memory`, kept in kB. */
module MemInfo {
  import opened CTypes

  const MEM_TOTAL: string := "MemTotal:"
  const MEM_AVAILABLE: string := "MemAvailable:"

  /** One complete match of `fscanf(f, "%63s %ld %15s\n", key, &val, unit)`:
      a key, a value and a unit token. A match need not be one line of the
      file (a line without a unit takes the next token as its unit); the file
      is given as the matches made before the first incomplete one. */
  datatype MemLine = MemLine(key: string, value: int, unit: string)

  /** `memTotalKB` and `memAvailableKB`. */
  datatype MemKB = MemKB(total: int, available: int)

  /** The loop body's update for one line. A line keyed "MemTotal:" sets
      the total, one keyed "MemAvailable:" the available figure, any other
      line nothing. */
  function Apply(m: MemKB, line: MemLine): MemKB {
    if line.key == MEM_TOTAL then m.(total := line.value)
    else if line.key == MEM_AVAILABLE then m.(available := line.value)
    else m
  }

  /** The loop's exit test: both figures nonzero. */
  predicate Complete(m: MemKB) {
    m.total != 0 && m.available != 0
  }

  /** The figures after the body has run on every line of `lines`, starting
      from 0/0. */
  function AfterLines(lines: seq<MemLine>): MemKB {
    if lines == [] then MemKB(0, 0) else Apply(AfterLines(lines[..|lines| - 1]), lines[|lines| - 1])
  }

  /** The value on the last line keyed `key`, or 0 when there is none. */
  function LastValue(lines: seq<MemLine>, key: string): (v: int)
    ensures (forall i :: 0 <= i < |lines| ==> lines[i].key != key) ==> v == 0
    ensures v != 0 ==> exists i :: 0 <= i < |lines| && lines[i].key == key && lines[i].value == v
    ensures (exists i :: 0 <= i < |lines| && lines[i].key == key) ==>
      exists i :: (
        && 0 <= i < |lines| && lines[i].key == key && lines[i].value == v
        && forall j :: i < j < |lines| ==> lines[j].key != key)
  {
    if lines == [] then 0
    else if lines[|lines| - 1].key == key then lines[|lines| - 1].value
    else
      assert forall j :: 0 <= j < |lines| - 1 ==> lines[..|lines| - 1][j] == lines[j];
      LastValue(lines[..|lines| - 1], key)
  }

  /** Each figure is the value of the last line with its key, 0 if none. */
  lemma {:induction false} AfterLinesValues(lines: seq<MemLine>)
    ensures AfterLines(lines) == MemKB(LastValue(lines, MEM_TOTAL), LastValue(lines, MEM_AVAILABLE))
  {
    assert MEM_TOTAL != MEM_AVAILABLE by {
      assert |MEM_TOTAL| != |MEM_AVAILABLE|;
    }
    if lines != [] {
      AfterLinesValues(lines[..|lines| - 1]);
    }
  }

  /** The number of lines the loop reads from position `i` on when it has
      not stopped before: up to and including the first line after which
      both figures are nonzero, or all of them. */
  function ConsumedFrom(lines: seq<MemLine>, i: nat): (k: nat)
    requires i <= |lines|
    ensures i <= k <= |lines|
    ensures k == |lines| || (i < k && Complete(AfterLines(lines[..k])))
    ensures forall j :: i < j < k ==> !Complete(AfterLines(lines[..j]))
    decreases |lines| - i
  {
    if i == |lines| then i
    else if Complete(AfterLines(lines[..i + 1])) then i + 1
    else ConsumedFrom(lines, i + 1)
  }

  /** The number of lines the scan reads: it stops right after the first
      line at which both figures are nonzero, and reads everything when
      that never happens. */
  function Consumed(lines: seq<MemLine>): (k: nat)
    ensures k <= |lines|
    ensures k == |lines| || Complete(AfterLines(lines[..k]))
    ensures forall j :: 0 <= j < k ==> !Complete(AfterLines(lines[..j]))
  {
    assert lines[..0] == [];
    ConsumedFrom(lines, 0)
  }

  /** The figures the scan ends with. */
  function Scanned(lines: seq<MemLine>): MemKB {
    AfterLines(lines[..Consumed(lines)])
  }

  /** What the scan keeps: the last "MemTotal:" and "MemAvailable:" values
      among the lines it read, so a key it never meets leaves 0. */
  lemma ScannedValues(lines: seq<MemLine>)
    ensures var k := Consumed(lines);
      Scanned(lines) == MemKB(LastValue(lines[..k], MEM_TOTAL), LastValue(lines[..k], MEM_AVAILABLE))
    ensures (forall i :: 0 <= i < |lines| ==> lines[i].key != MEM_TOTAL) ==> Scanned(lines).total == 0
    ensures (forall i :: 0 <= i < |lines| ==> lines[i].key != MEM_AVAILABLE) ==> Scanned(lines).available == 0
  {
    var k := Consumed(lines);
    AfterLinesValues(lines[..k]);
  }

  /** `get_cpu_memory` in kB: nothing written for a NULL pointer; 0/0 when
      `/proc/meminfo` will not open; otherwise the figures of the scan. */
  method GetCpuMemory(totalram: Ptr, freeram: Ptr, meminfo: Option<seq<MemLine>>)
    returns (out: OutPair<int>)
    ensures (totalram.Null? || freeram.Null?) ==> out == NothingWritten
    ensures totalram.NonNull? && freeram.NonNull? && meminfo.None? ==> out == Wrote(0, 0)
    ensures totalram.NonNull? && freeram.NonNull? && meminfo.Some? ==>
      out == Wrote(Scanned(meminfo.value).total, Scanned(meminfo.value).available)
  {
    if totalram.Null? || freeram.Null? {
      return NothingWritten;
    }
    if meminfo.None? {
      return Wrote(0, 0);
    }
    var lines := meminfo.value;
    var memTotalKB := 0;
    var memAvailableKB := 0;
    var i := 0;
    while i < |lines|
      invariant 0 <= i <= |lines|
      invariant MemKB(memTotalKB, memAvailableKB) == AfterLines(lines[..i])
      invariant !Complete(AfterLines(lines[..i]))
      invariant ConsumedFrom(lines, i) == Consumed(lines)
    {
      var line := lines[i];
      if line.key == MEM_TOTAL {
        memTotalKB := line.value;
      } else if line.key == MEM_AVAILABLE {
        memAvailableKB := line.value;
      }
      assert lines[..i + 1][..i] == lines[..i];
      i := i + 1;
      if memTotalKB != 0 && memAvailableKB != 0 {
        break;
      }
    }
    return Wrote(memTotalKB, memAvailableKB);
  }

  /** The start of a typical `/proc/meminfo`: the scan stops after three
      lines with 3884428 kB total and 2987654 kB available. */
  lemma TypicalMeminfo()
    ensures var lines := [
        MemLine(MEM_TOTAL, 3884428, "kB"),
        MemLine("MemFree:", 1024000, "kB"),
        MemLine(MEM_AVAILABLE, 2987654, "kB"),
        MemLine("Buffers:", 51200, "kB")];
      Consumed(lines) == 3 && Scanned(lines) == MemKB(3884428, 2987654)
  {
    var lines := [
        MemLine(MEM_TOTAL, 3884428, "kB"),
        MemLine("MemFree:", 1024000, "kB"),
        MemLine(MEM_AVAILABLE, 2987654, "kB"),
        MemLine("Buffers:", 51200, "kB")];
    assert "MemFree:" != MEM_TOTAL && "MemFree:" != MEM_AVAILABLE by {
      assert "MemFree:"[3] != MEM_TOTAL[3];
      assert |"MemFree:"| != |MEM_AVAILABLE|;
    }
    assert MEM_AVAILABLE != MEM_TOTAL by {
      assert |MEM_TOTAL| != |MEM_AVAILABLE|;
    }
    assert AfterLines(lines[..1]) == MemKB(3884428, 0);
    assert AfterLines(lines[..2]) == MemKB(3884428, 0) by {
      assert lines[..2][..1] == lines[..1];
    }
    assert AfterLines(lines[..3]) == MemKB(3884428, 2987654) by {
      assert lines[..3][..2] == lines[..2];
    }
  }
}
